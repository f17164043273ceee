/**
 * The filter panel (src/components/dashboard/SearchFilters.tsx): its local
 * search text and criteria, the handlers that change them, and the copy the
 * dashboard page keeps through the `onSearch` and `onFilterChange` callbacks.
 */
module SearchFilters {
  import opened LeadTypes
  import opened FilterEngine

  /** The ids of the source buttons, in display order (`sourceOptions`). */
  const SourceOptionIds: seq<string> := ["linkedin", "pubmed", "conference", "funding", "grants"]

  /** Every button toggles a tag a lead can carry, and every tag has a button. */
  lemma SourceOptionsMatchTags()
    ensures forall s: Source :: SourceTag(s) in SourceOptionIds
    ensures forall i :: 0 <= i < |SourceOptionIds| ==> ParseSource(SourceOptionIds[i]).Some?
  {
  }

  /** `sources.filter(s => s !== x)`: every copy of `x` goes, every other copy stays. */
  function RemoveAll(sources: seq<string>, x: string): (r: seq<string>)
    ensures |r| <= |sources|
    ensures forall y :: y in r <==> y in sources && y != x
    ensures forall y :: multiset(r)[y] == if y == x then 0 else multiset(sources)[y]
  {
    if sources == [] then []
    else
      assert sources == [sources[0]] + sources[1..];
      if sources[0] == x then RemoveAll(sources[1..], x)
      else [sources[0]] + RemoveAll(sources[1..], x)
  }

  /** The remaining ids keep their relative order. */
  lemma {:induction false} RemoveAllIsSubsequence(sources: seq<string>, x: string)
    ensures IsSubsequence(RemoveAll(sources, x), sources)
    decreases |sources|
  {
    if sources != [] {
      RemoveAllIsSubsequence(sources[1..], x);
      var r := RemoveAll(sources, x);
      if sources[0] != x {
        assert r[0] == sources[0] && r[1..] == RemoveAll(sources[1..], x);
      }
    }
  }

  /** The new source list of `toggleSource`: drop the id if selected, else append it. */
  function ToggledSources(sources: seq<string>, id: string): (r: seq<string>)
    ensures id in r <==> id !in sources
    ensures forall y :: y != id ==> (y in r <==> y in sources)
    ensures id !in sources ==> r == sources + [id]
    ensures id in sources ==> r == RemoveAll(sources, id)
  {
    if id in sources then RemoveAll(sources, id) else sources + [id]
  }

  /** The badge number on the Filters button. */
  function ActiveFiltersCount(f: FilterState): (n: nat)
    ensures n == 0 <==> f.sources == [] && f.minScore <= 0
    ensures |f.sources| <= n <= |f.sources| + 1
  {
    |f.sources| + (if f.minScore > 0 then 1 else 0)
  }

  ghost predicate NoDuplicates(s: seq<string>)
  {
    forall i, j :: 0 <= i < j < |s| ==> s[i] != s[j]
  }

  lemma {:induction false} RemoveAllKeepsNoDuplicates(s: seq<string>, x: string)
    requires NoDuplicates(s)
    ensures NoDuplicates(RemoveAll(s, x))
    decreases |s|
  {
    if s != [] {
      RemoveAllKeepsNoDuplicates(s[1..], x);
      assert s[0] !in s[1..];
    }
  }

  lemma {:induction false} RemoveAllAbsent(s: seq<string>, x: string)
    requires x !in s
    ensures RemoveAll(s, x) == s
    decreases |s|
  {
    if s != [] {
      RemoveAllAbsent(s[1..], x);
    }
  }

  lemma {:induction false} RemoveAllAppended(s: seq<string>, x: string)
    requires x !in s
    ensures RemoveAll(s + [x], x) == s
    decreases |s|
  {
    if s == [] {
      assert [] + [x] == [x];
    } else {
      assert (s + [x])[1..] == s[1..] + [x];
      RemoveAllAppended(s[1..], x);
    }
  }

  /** Removing an id that occurs once shortens the list by exactly one. */
  lemma {:induction false} RemoveAllLength(s: seq<string>, x: string)
    requires NoDuplicates(s) && x in s
    ensures |RemoveAll(s, x)| == |s| - 1
    decreases |s|
  {
    if s[0] == x {
      assert x !in s[1..];
      RemoveAllAbsent(s[1..], x);
    } else {
      RemoveAllLength(s[1..], x);
    }
  }

  /** A duplicate-free selection stays duplicate-free under toggling. */
  lemma ToggleKeepsNoDuplicates(s: seq<string>, id: string)
    requires NoDuplicates(s)
    ensures NoDuplicates(ToggledSources(s, id))
  {
    if id in s {
      RemoveAllKeepsNoDuplicates(s, id);
    }
  }

  /** Toggling an unselected source on and off again restores the list exactly. */
  lemma ToggleAbsentTwice(s: seq<string>, id: string)
    requires id !in s
    ensures ToggledSources(ToggledSources(s, id), id) == s
  {
    RemoveAllAppended(s, id);
  }

  /** Each toggle of a duplicate-free selection moves the badge count by exactly one. */
  lemma ToggleMovesCountByOne(f: FilterState, id: string)
    requires NoDuplicates(f.sources)
    ensures ActiveFiltersCount(f.(sources := ToggledSources(f.sources, id)))
         == ActiveFiltersCount(f) + (if id in f.sources then -1 else 1)
  {
    if id in f.sources {
      RemoveAllLength(f.sources, id);
    }
  }

  /**
   * The panel's state beside the page's copy of it. The page's `searchQuery`
   * and `filters` change only through the callbacks the handlers call.
   */
  class FilterPanel {
    var searchQuery: string
    var filters: FilterState
    var pageQuery: string
    var pageFilters: FilterState

    /** The page sees exactly what the panel holds. */
    ghost predicate Synced()
      reads this
    {
      pageQuery == searchQuery && pageFilters == filters
    }

    /** Both components start with an empty search and no filters. */
    constructor ()
      ensures searchQuery == "" && filters == NoFilters
      ensures Synced()
    {
      searchQuery, filters := "", NoFilters;
      pageQuery, pageFilters := "", NoFilters;
    }

    /** `handleSearch`: store the text and pass it to `onSearch`. */
    method HandleSearch(value: string)
      requires Synced()
      modifies this
      ensures searchQuery == value && filters == old(filters)
      ensures Synced()
    {
      searchQuery := value;
      pageQuery := value;
    }

    /** `toggleSource`: flip one source and pass the new criteria to `onFilterChange`. */
    method ToggleSource(sourceId: string)
      requires Synced()
      modifies this
      ensures filters.sources == ToggledSources(old(filters.sources), sourceId)
      ensures filters.minScore == old(filters.minScore) && searchQuery == old(searchQuery)
      ensures Synced()
    {
      var newSources := ToggledSources(filters.sources, sourceId);
      var newFilters := filters.(sources := newSources);
      filters := newFilters;
      pageFilters := newFilters;
    }

    /** `clearFilters`: back to no sources and floor 0; the search text stays. */
    method ClearFilters()
      requires Synced()
      modifies this
      ensures filters == NoFilters && searchQuery == old(searchQuery)
      ensures ActiveFiltersCount(filters) == 0
      ensures Synced()
    {
      filters := NoFilters;
      pageFilters := NoFilters;
    }

    /** The slider's `onChange`: a new floor; the selected sources stay. */
    method SetMinScore(value: int)
      requires Synced()
      modifies this
      ensures filters.minScore == value
      ensures filters.sources == old(filters.sources) && searchQuery == old(searchQuery)
      ensures Synced()
    {
      var newFilters := filters.(minScore := value);
      filters := newFilters;
      pageFilters := newFilters;
    }

    /** The list the page renders, derived from the page's copy of the criteria. */
    function VisibleLeads(leads: seq<Lead>): seq<Lead>
      reads this
    {
      FilterLeads(leads, pageQuery, pageFilters)
    }
  }

  /**
   * A session: after any search and any toggles, clearing the filters and the
   * search shows every lead with a non-negative probability, in page order.
   */
  method ClearRestoresFullList(panel: FilterPanel, leads: seq<Lead>, query: string, id: string)
    requires panel.Synced()
    requires forall x :: x in leads ==> x.probability >= 0
    modifies panel
    ensures panel.VisibleLeads(leads) == leads
  {
    panel.HandleSearch(query);
    panel.ToggleSource(id);
    panel.ClearFilters();
    panel.HandleSearch("");
    DefaultFiltersKeepAll(leads);
  }
}
