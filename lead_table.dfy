/**
 * The lead table (src/components/dashboard/LeadTable.tsx): source labels,
 * the HQ line condition, and the single expanded row.
 */
module LeadTable {
  import opened LeadTypes
  import opened Text

  /** `sourceLabels`: the display label of each tag, which is the tag capitalised. */
  function SourceLabel(s: Source): (name: string)
    ensures |name| == |SourceTag(s)| && IsUpper(name[0])
    ensures forall i :: 0 <= i < |name| ==> LowerChar(name[i]) == SourceTag(s)[i]
  {
    match s
    case LinkedIn => "LinkedIn"
    case PubMed => "PubMed"
    case Conference => "Conference"
    case Funding => "Funding"
    case Grants => "Grants"
  }

  /** Lowering a label gives back the tag it labels. */
  lemma SourceLabelLowersToTag(s: Source)
    ensures Lower(SourceLabel(s)) == SourceTag(s)
  {
    var name := SourceLabel(s);
    assert forall i :: 0 <= i < |name| ==> Lower(name)[i] == SourceTag(s)[i];
  }

  /** Distinct sources show distinct labels. */
  lemma SourceLabelInjective(s: Source, t: Source)
    requires SourceLabel(s) == SourceLabel(t)
    ensures s == t
  {
  }

  /**
   * The text lines of a lead's location cell: the person's location, then an
   * "HQ: ..." line only when the company HQ is a different place. The HQ can
   * always be read from the cell, and the cell never names a place twice.
   */
  function LocationCell(l: Lead): (lines: seq<string>)
    ensures 1 <= |lines| <= 2 && lines[0] == l.personLocation
    ensures lines[0] == l.companyHQ || lines[|lines| - 1] == "HQ: " + l.companyHQ
    ensures |lines| == 2 <==> l.personLocation != l.companyHQ
  {
    [l.personLocation] + (if l.personLocation != l.companyHQ then ["HQ: " + l.companyHQ] else [])
  }

  /** The toggle button's `onClick`: collapse the row if it is open, else open it. */
  function NextExpanded(current: Option<string>, id: string): (r: Option<string>)
    ensures r == None <==> current == Some(id)
    ensures r.Some? ==> r.value == id
  {
    if current == Some(id) then None else Some(id)
  }

  /** The leads that get a detail row: those whose id equals the expanded one. */
  function DetailRows(leads: seq<Lead>, expanded: Option<string>): (r: seq<Lead>)
    ensures |r| <= |leads|
    ensures forall x :: x in r <==> x in leads && expanded == Some(x.id)
  {
    if leads == [] then []
    else if expanded == Some(leads[0].id) then [leads[0]] + DetailRows(leads[1..], expanded)
    else DetailRows(leads[1..], expanded)
  }

  ghost predicate DistinctIds(leads: seq<Lead>)
  {
    forall i, j :: 0 <= i < j < |leads| ==> leads[i].id != leads[j].id
  }

  lemma {:induction false} NoMatchNoDetailRow(leads: seq<Lead>, expanded: Option<string>)
    requires forall x :: x in leads ==> expanded != Some(x.id)
    ensures DetailRows(leads, expanded) == []
    decreases |leads|
  {
    if leads != [] {
      NoMatchNoDetailRow(leads[1..], expanded);
    }
  }

  /** With distinct ids at most one detail row is rendered. */
  lemma {:induction false} AtMostOneDetailRow(leads: seq<Lead>, expanded: Option<string>)
    requires DistinctIds(leads)
    ensures |DetailRows(leads, expanded)| <= 1
    decreases |leads|
  {
    if leads != [] {
      AtMostOneDetailRow(leads[1..], expanded);
      if expanded == Some(leads[0].id) {
        forall x | x in leads[1..] ensures expanded != Some(x.id) {
          var k :| 0 <= k < |leads[1..]| && leads[1..][k] == x;
          assert leads[k + 1] == x;
        }
        NoMatchNoDetailRow(leads[1..], expanded);
      }
    }
  }

  /** With distinct ids the expanded lead is the one detail row. */
  lemma ExpandedLeadIsTheDetailRow(leads: seq<Lead>, i: nat)
    requires DistinctIds(leads) && i < |leads|
    ensures DetailRows(leads, Some(leads[i].id)) == [leads[i]]
  {
    var r := DetailRows(leads, Some(leads[i].id));
    AtMostOneDetailRow(leads, Some(leads[i].id));
    assert leads[i] in r;
  }

  /** The expanded-row state of one table. */
  class RowExpansion {
    var expandedRow: Option<string>

    /** Initially no row is expanded. */
    constructor ()
      ensures expandedRow == None
    {
      expandedRow := None;
    }

    function IsExpanded(id: string): bool
      reads this
    {
      expandedRow == Some(id)
    }

    /** Clicking the chevron of row `id`. */
    method ToggleRow(id: string)
      modifies this
      ensures expandedRow == NextExpanded(old(expandedRow), id)
      ensures IsExpanded(id) <==> !old(IsExpanded(id))
      ensures forall other :: other != id ==> !IsExpanded(other)
    {
      expandedRow := NextExpanded(expandedRow, id);
    }
  }

  /** Clicking one row and then another leaves only the second open. */
  method OpeningAnotherRowClosesTheFirst(table: RowExpansion, a: string, b: string)
    requires a != b
    modifies table
    ensures table.expandedRow == Some(b)
  {
    table.ToggleRow(a);
    table.ToggleRow(b);
  }
}
