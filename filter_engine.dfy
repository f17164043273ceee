/**
 * The lead filter of the dashboard page (`filteredLeads` in src/pages/Index.tsx)
 * and the count of high-probability leads shown in the stats card.
 */
module FilterEngine {
  import opened LeadTypes
  import opened Text
  import opened ProbabilityBadge

  /** The criteria the page holds besides the search text: selected source tags and a score floor. */
  datatype FilterState = FilterState(sources: seq<string>, minScore: int)

  /** The initial (and cleared) criteria: no source selected, floor 0. */
  const NoFilters: FilterState := FilterState([], 0)

  /**
   * Case-insensitive search over the five searchable fields: the lowered
   * query occurs in the lowered name, company, title, location or HQ.
   * Every string includes the empty query.
   */
  predicate MatchesSearch(lead: Lead, query: string): (b: bool)
    ensures query == "" ==> b
    ensures b <==> || Occurs(Lower(lead.name), Lower(query))
                   || Occurs(Lower(lead.company), Lower(query))
                   || Occurs(Lower(lead.title), Lower(query))
                   || Occurs(Lower(lead.personLocation), Lower(query))
                   || Occurs(Lower(lead.companyHQ), Lower(query))
  {
    IncludesIffOccurs(Lower(lead.name), Lower(query));
    IncludesIffOccurs(Lower(lead.company), Lower(query));
    IncludesIffOccurs(Lower(lead.title), Lower(query));
    IncludesIffOccurs(Lower(lead.personLocation), Lower(query));
    IncludesIffOccurs(Lower(lead.companyHQ), Lower(query));
    || Includes(Lower(lead.name), Lower(query))
    || Includes(Lower(lead.company), Lower(query))
    || Includes(Lower(lead.title), Lower(query))
    || Includes(Lower(lead.personLocation), Lower(query))
    || Includes(Lower(lead.companyHQ), Lower(query))
  }

  /**
   * The predicate handed to `Array.filter`. An empty query is falsy and skips
   * the search; since every field includes "", skipping it changes nothing.
   */
  predicate Passes(lead: Lead, query: string, f: FilterState): (b: bool)
    ensures b <==> && MatchesSearch(lead, query)
                   && (f.sources == [] || SourceTag(lead.source) in f.sources)
                   && lead.probability >= f.minScore
  {
    && (query != "" ==> MatchesSearch(lead, query))
    && (|f.sources| > 0 ==> SourceTag(lead.source) in f.sources)
    && !(lead.probability < f.minScore)
  }

  /**
   * `leads.filter(...)`: the leads that pass, in their original order. Every
   * copy of a passing lead is kept and no copy of a failing one.
   */
  function FilterLeads(leads: seq<Lead>, query: string, f: FilterState): (r: seq<Lead>)
    ensures |r| <= |leads|
    ensures forall x :: x in r <==> x in leads && Passes(x, query, f)
    ensures forall x :: multiset(r)[x] == if Passes(x, query, f) then multiset(leads)[x] else 0
  {
    if leads == [] then []
    else
      assert leads == [leads[0]] + leads[1..];
      if Passes(leads[0], query, f) then [leads[0]] + FilterLeads(leads[1..], query, f)
      else FilterLeads(leads[1..], query, f)
  }

  /** `a` is obtained from `b` by deleting elements, keeping the order of the rest. */
  ghost predicate IsSubsequence<T>(a: seq<T>, b: seq<T>)
    decreases |b|
  {
    a == [] || (b != [] && ((a[0] == b[0] && IsSubsequence(a[1..], b[1..])) || IsSubsequence(a, b[1..])))
  }

  lemma {:induction false} SubsequenceReflexive<T>(a: seq<T>)
    ensures IsSubsequence(a, a)
    decreases |a|
  {
    if a != [] {
      SubsequenceReflexive(a[1..]);
    }
  }

  /** The result keeps surviving leads in their original relative order. */
  lemma {:induction false} FilterIsSubsequence(leads: seq<Lead>, query: string, f: FilterState)
    ensures IsSubsequence(FilterLeads(leads, query, f), leads)
    decreases |leads|
  {
    if leads != [] {
      FilterIsSubsequence(leads[1..], query, f);
      var r := FilterLeads(leads, query, f);
      if Passes(leads[0], query, f) {
        assert r[0] == leads[0] && r[1..] == FilterLeads(leads[1..], query, f);
      }
    }
  }

  /** A lead survives only if the lowered query occurs in one of the five lowered fields. */
  lemma SurvivorMatchesQuery(leads: seq<Lead>, query: string, f: FilterState, x: Lead)
    requires query != "" && x in FilterLeads(leads, query, f)
    ensures exists i :: OccursAt(Lower(x.name), Lower(query), i)
                      || OccursAt(Lower(x.company), Lower(query), i)
                      || OccursAt(Lower(x.title), Lower(query), i)
                      || OccursAt(Lower(x.personLocation), Lower(query), i)
                      || OccursAt(Lower(x.companyHQ), Lower(query), i)
  {
    var q := Lower(query);
    IncludesIffOccurs(Lower(x.name), q);
    IncludesIffOccurs(Lower(x.company), q);
    IncludesIffOccurs(Lower(x.title), q);
    IncludesIffOccurs(Lower(x.personLocation), q);
    IncludesIffOccurs(Lower(x.companyHQ), q);
  }

  /** The search ignores the case of the query. */
  lemma {:induction false} FilterIgnoresQueryCase(leads: seq<Lead>, query: string, f: FilterState)
    ensures FilterLeads(leads, Lower(query), f) == FilterLeads(leads, query, f)
    decreases |leads|
  {
    if leads != [] {
      LowerIdempotent(query);
      LowerKeepsEmptiness(query);
      assert Passes(leads[0], Lower(query), f) == Passes(leads[0], query, f);
      FilterIgnoresQueryCase(leads[1..], query, f);
    }
  }

  /** With no source selected, the source of a lead plays no part. */
  lemma {:induction false} EmptySourcesIgnoreSource(leads: seq<Lead>, query: string, minScore: int)
    ensures forall x :: x in FilterLeads(leads, query, FilterState([], minScore)) <==>
      x in leads && (query != "" ==> MatchesSearch(x, query)) && x.probability >= minScore
  {
  }

  /** With sources selected, every survivor's source is one of them. */
  lemma SurvivorSourceSelected(leads: seq<Lead>, query: string, f: FilterState, x: Lead)
    requires |f.sources| > 0 && x in FilterLeads(leads, query, f)
    ensures SourceTag(x.source) in f.sources
  {
  }

  /** The page's initial criteria show every lead whose probability is not negative. */
  lemma {:induction false} DefaultFiltersKeepAll(leads: seq<Lead>)
    requires forall x :: x in leads ==> x.probability >= 0
    ensures FilterLeads(leads, "", NoFilters) == leads
    decreases |leads|
  {
    if leads != [] {
      DefaultFiltersKeepAll(leads[1..]);
    }
  }

  /** Filtering twice with the same criteria changes nothing the second time. */
  lemma {:induction false} FilterIdempotent(leads: seq<Lead>, query: string, f: FilterState)
    ensures FilterLeads(FilterLeads(leads, query, f), query, f) == FilterLeads(leads, query, f)
    decreases |leads|
  {
    if leads != [] {
      FilterIdempotent(leads[1..], query, f);
      var r := FilterLeads(leads, query, f);
      if Passes(leads[0], query, f) {
        assert r[0] == leads[0] && r[1..] == FilterLeads(leads[1..], query, f);
      }
    }
  }

  /** Raising the floor (same query and sources) only removes leads from the result. */
  lemma {:induction false} RaisingMinScoreNarrows(leads: seq<Lead>, query: string, f: FilterState, higher: int)
    requires f.minScore <= higher
    ensures FilterLeads(leads, query, f.(minScore := higher))
         == FilterLeads(FilterLeads(leads, query, f), query, f.(minScore := higher))
    ensures IsSubsequence(FilterLeads(leads, query, f.(minScore := higher)), FilterLeads(leads, query, f))
    decreases |leads|
  {
    var g := f.(minScore := higher);
    FilterIsSubsequence(FilterLeads(leads, query, f), query, g);
    if leads != [] {
      RaisingMinScoreNarrows(leads[1..], query, f, higher);
      var r := FilterLeads(leads, query, f);
      if Passes(leads[0], query, f) {
        assert r[0] == leads[0] && r[1..] == FilterLeads(leads[1..], query, f);
      }
    }
  }

  /**
   * `mockLeads.filter(l => l.probability >= 80).length`: never more than the
   * total, and zero exactly when no lead reaches 80.
   */
  function HighProbabilityCount(leads: seq<Lead>): (n: nat)
    ensures n <= |leads|
    ensures n == 0 <==> forall x :: x in leads ==> x.probability < 80
  {
    if leads == [] then 0
    else (if leads[0].probability >= 80 then 1 else 0) + HighProbabilityCount(leads[1..])
  }

  /** The count agrees with the filter at floor 80 and with the badge's high tier. */
  lemma {:induction false} HighProbabilityIsHighTier(leads: seq<Lead>)
    ensures HighProbabilityCount(leads) == |FilterLeads(leads, "", FilterState([], 80))|
    ensures forall x :: x in FilterLeads(leads, "", FilterState([], 80)) <==> x in leads && ScoreStyle(x.probability) == High
    decreases |leads|
  {
    if leads != [] {
      HighProbabilityIsHighTier(leads[1..]);
    }
  }
}
