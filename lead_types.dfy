/** The lead record and its closed source enumeration (src/types/lead.ts). */
module LeadTypes {

  datatype Option<+T> = None | Some(value: T)

  /** The acquisition channel of a lead: a closed set of five tags. */
  datatype Source = LinkedIn | PubMed | Conference | Funding | Grants

  /** The five weighted sub-scores; their sum is not tied to `probability`. */
  datatype ScoreBreakdown = ScoreBreakdown(
    roleFit: int,
    companyIntent: int,
    technographic: int,
    location: int,
    scientificIntent: int)

  datatype Lead = Lead(
    id: string,
    rank: int,
    probability: int,
    name: string,
    title: string,
    company: string,
    personLocation: string,
    companyHQ: string,
    email: string,
    phone: Option<string>,
    linkedInUrl: string,
    source: Source,
    scoreBreakdown: ScoreBreakdown,
    recentPublication: Option<string>,
    fundingStatus: Option<string>,
    conferencePresence: Option<string>,
    lastActivity: Option<string>)

  /** The string literal that stands for a source in the TypeScript union type. */
  function SourceTag(s: Source): string
  {
    match s
    case LinkedIn => "linkedin"
    case PubMed => "pubmed"
    case Conference => "conference"
    case Funding => "funding"
    case Grants => "grants"
  }

  /** Reads a tag back; anything outside the union is rejected. */
  function ParseSource(tag: string): (r: Option<Source>)
    ensures r.Some? ==> SourceTag(r.value) == tag
  {
    if tag == "linkedin" then Some(LinkedIn)
    else if tag == "pubmed" then Some(PubMed)
    else if tag == "conference" then Some(Conference)
    else if tag == "funding" then Some(Funding)
    else if tag == "grants" then Some(Grants)
    else None
  }

  /** Every source has a tag that reads back as itself, so tags are distinct. */
  lemma SourceTagRoundTrip(s: Source)
    ensures ParseSource(SourceTag(s)) == Some(s)
  {
    match s
    case LinkedIn =>
    case PubMed =>
      assert SourceTag(s) != "linkedin";
    case Conference =>
      assert SourceTag(s) != "linkedin" && SourceTag(s) != "pubmed";
    case Funding =>
      assert SourceTag(s) != "linkedin" && SourceTag(s) != "pubmed" && SourceTag(s) != "conference";
    case Grants =>
      assert SourceTag(s) != "linkedin" && SourceTag(s) != "pubmed" && SourceTag(s) != "conference";
      assert SourceTag(s) != "funding";
  }

  lemma SourceTagInjective(s: Source, t: Source)
    requires SourceTag(s) == SourceTag(t)
    ensures s == t
  {
    SourceTagRoundTrip(s);
    SourceTagRoundTrip(t);
  }
}
