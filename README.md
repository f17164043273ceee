# LeadScope lead pipeline — a Dafny model

LeadScope is a browser dashboard of sales leads. This project models the logic in its
client-side lead pipeline:

- the `Lead` record and its five-value `source` union (`LeadTypes`);
- the filter the dashboard page applies to the lead list (`FilterEngine`). It combines a
  case-insensitive search over five text fields, a selected-sources test and a
  minimum-score floor. The module also holds the page's count of high-probability leads;
- the CSV text the page exports (`CsvExporter`), with the helpers that render numbers
  (`Decimal`) and lower-case and search text (`Text`);
- the filter panel's state and handlers (`SearchFilters.FilterPanel`). The model also keeps
  the page's copy of the criteria, which the handlers update through their callbacks;
- the lead table's single expanded row, its source labels and its HQ-line condition
  (`LeadTable`);
- the probability badge's score tiers (`ProbabilityBadge`).

Pure code is modelled as functions with lemmas. Component state that handlers change is
modelled as classes: `FilterPanel` and `RowExpansion`.

Two details of the code worth knowing:

- The CSV header is `"Rank","Score",…` with no spaces after the commas.
- The selected sources form a list, not a set. `toggleSource` removes every copy of the id
  when present, and appends the id at the end when absent.

## Model

| member | source | states |
|---|---|---|
| `LeadTypes.ParseSource` | src/types/lead.ts:13 | a tag reads back only as the source whose tag it is; any other string is rejected |
| `LeadTypes.SourceTagRoundTrip` | src/types/lead.ts:13 | every one of the five sources reads back from its tag, so the tags are distinct |
| `LeadTypes.SourceTagInjective` | src/types/lead.ts:13 | two sources with the same tag are the same source |
| `Text.LowerChar` | src/pages/Index.tsx:24 | the lowered character is never an upper-case ASCII letter; only `A`–`Z` change, and each maps to its lower-case letter |
| `Text.Lower` | src/pages/Index.tsx:24-30 | lowering keeps the length and lowers each character in place |
| `Text.LowerIdempotent` | src/pages/Index.tsx:24-30 | lowering a lowered string changes nothing |
| `Text.Includes` | src/pages/Index.tsx:26-30 | a query that is a prefix of the field is found (the empty query always is), and a found query is never longer than the field |
| `Text.IncludesIffOccurs` | src/pages/Index.tsx:26-30 | `includes` holds exactly when the query occurs at some position of the field |
| `Decimal.NatToString` | src/pages/Index.tsx:77 | a non-negative number renders as a non-empty run of digits |
| `Decimal.IntToString` | src/pages/Index.tsx:77 | a rendered integer is non-empty and holds only digits, except a leading `-`, which appears exactly when the number is negative |
| `Decimal.NatToStringRoundTrip` | src/pages/Index.tsx:77 | reading the digits back gives the number |
| `Decimal.IntToStringRoundTrip` | src/pages/Index.tsx:77 | reading a rendered integer back gives the integer, so the Rank and Score cells lose nothing (for integers below 2^53 in magnitude, see Left out) |
| `ProbabilityBadge.ScoreStyle` | src/components/dashboard/ProbabilityBadge.tsx:9-13 | high exactly when the score is at least 80, medium exactly when it is in [50, 80), low exactly when it is below 50 |
| `ProbabilityBadge.ScoreStyleMonotone` | src/components/dashboard/ProbabilityBadge.tsx:9-13 | a higher score never gets a lower tier |
| `ProbabilityBadge.ClassName` | src/components/dashboard/ProbabilityBadge.tsx:10-12 | every tier's class name carries the `score-` prefix |
| `ProbabilityBadge.ClassNameOfScore` | src/components/dashboard/ProbabilityBadge.tsx:9-13 | a score's badge class is `score-high` exactly when the score is at least 80, `score-medium` exactly when it is in [50, 80), `score-low` exactly when it is below 50 |
| `ProbabilityBadge.ClassNameInjective` | src/components/dashboard/ProbabilityBadge.tsx:10-12 | the three tiers get three different class names |
| `FilterEngine.MatchesSearch` | src/pages/Index.tsx:23-33 | the search matches exactly when the lowered query occurs in the lowered name, company, title, location or HQ; the empty query matches every lead |
| `FilterEngine.Passes` | src/pages/Index.tsx:21-45 | a lead passes exactly when it matches the search, its source is selected or no source is, and its probability reaches the floor; the empty-query shortcut changes nothing |
| `FilterEngine.FilterLeads` | src/pages/Index.tsx:20-47 | every copy of a passing lead is kept and no copy of a failing one (equal multisets), so the result is no longer than the input and holds exactly the passing leads |
| `FilterEngine.FilterIsSubsequence` | src/pages/Index.tsx:21 | the result is a subsequence of the input: survivors keep their relative order |
| `FilterEngine.SurvivorMatchesQuery` | src/pages/Index.tsx:23-33 | with a non-empty query, every survivor has the lowered query at some position of its lowered name, company, title, location or HQ |
| `FilterEngine.FilterIgnoresQueryCase` | src/pages/Index.tsx:23-30 | filtering by a query and by its lower-case form gives the same list |
| `FilterEngine.EmptySourcesIgnoreSource` | src/pages/Index.tsx:36-38 | with no source selected, membership depends only on the search and the floor |
| `FilterEngine.SurvivorSourceSelected` | src/pages/Index.tsx:36-38 | with sources selected, every survivor's source tag is among them |
| `FilterEngine.DefaultFiltersKeepAll` | src/pages/Index.tsx:20-46 | empty search, no sources and floor 0 return the input unchanged when no probability is negative |
| `FilterEngine.FilterIdempotent` | src/pages/Index.tsx:21-46 | filtering the result again with the same criteria returns it unchanged |
| `FilterEngine.RaisingMinScoreNarrows` | src/pages/Index.tsx:41-43 | with a higher floor the result is the old result filtered again, hence a subsequence of it |
| `FilterEngine.HighProbabilityCount` | src/pages/Index.tsx:50 | the high-probability count never exceeds the number of leads, and is zero exactly when no lead reaches 80 |
| `FilterEngine.HighProbabilityIsHighTier` | src/pages/Index.tsx:50 | the count is the length of the list filtered at floor 80, and that list holds exactly the leads the badge marks high |
| `CsvExporter.LeadCells` | src/pages/Index.tsx:64-74 | each lead contributes as many values as there are header columns |
| `CsvExporter.Quote` | src/pages/Index.tsx:77 | a quoted cell is two characters longer than the cell and begins and ends with `"` |
| `CsvExporter.Join` | src/pages/Index.tsx:76-78 | joining no parts gives the empty text; a joined text begins with the first part |
| `CsvExporter.QuotedCells` | src/pages/Index.tsx:77 | each cell is wrapped in `"` in place, one for one |
| `CsvExporter.LeadRows` | src/pages/Index.tsx:64-74 | there is one row per lead, in input order, each row made from that lead's cells |
| `CsvExporter.HeaderRow` | src/pages/Index.tsx:63 | the header row is `"Rank","Score","Name","Title","Company","Location","HQ","Email","Source"` |
| `CsvExporter.RowText` | src/pages/Index.tsx:77 | a row holds exactly the newlines its cells hold: quoting and `,` add none |
| `CsvExporter.CsvContent` | src/pages/Index.tsx:76-78 | the export begins with the header row and holds one newline per lead plus those inside lead fields |
| `CsvExporter.SplitJoin` | src/pages/Index.tsx:76-78 | splitting text joined by a separator gives the parts back, when no part contains the separator |
| `CsvExporter.SplitCount` | src/pages/Index.tsx:78 | a text splits into one more line than it has newlines |
| `CsvExporter.JoinOccurrences` | src/pages/Index.tsx:76-78 | a joined text holds the separators that join inserts plus those inside the parts |
| `CsvExporter.CsvLineCount` | src/pages/Index.tsx:76-78 | the export has one line per lead, plus the header line, plus one line per newline inside a field |
| `CsvExporter.CsvLines` | src/pages/Index.tsx:63-78 | when no field holds a newline, the export has exactly one line more than there are leads: the header line, then each lead's row in input order |
| `CsvExporter.ReadRowText` | src/pages/Index.tsx:77 | a row reads back as its cells when no cell contains `"` |
| `CsvExporter.LeadRowReadsBack` | src/pages/Index.tsx:64-77 | a lead's row reads back as the lead's nine values in column order, when no value contains `"` |
| `CsvExporter.UnescapedQuoteCollides` | src/pages/Index.tsx:77 | quotes are not escaped, so one cell holding `a","b` is written exactly like the two cells `a` and `b` |
| `SearchFilters.SourceOptionsMatchTags` | src/components/dashboard/SearchFilters.tsx:19-25 | every source has a button, and every button's id is a valid source tag |
| `SearchFilters.RemoveAll` | src/components/dashboard/SearchFilters.tsx:42 | every copy of the removed id goes and every copy of each other id stays (equal multisets apart from the removed id), so the result holds exactly the other ids |
| `SearchFilters.RemoveAllIsSubsequence` | src/components/dashboard/SearchFilters.tsx:42 | the remaining ids keep their relative order |
| `SearchFilters.ToggledSources` | src/components/dashboard/SearchFilters.tsx:41-43 | the toggled id is selected afterwards exactly when it was not selected before, and no other id's membership changes; an absent id is appended at the end of the unchanged list, a present one removed with every copy |
| `SearchFilters.ToggleKeepsNoDuplicates` | src/components/dashboard/SearchFilters.tsx:40-43 | a selection without duplicates stays without duplicates |
| `SearchFilters.ToggleAbsentTwice` | src/components/dashboard/SearchFilters.tsx:41-43 | toggling an unselected id twice restores the list exactly |
| `SearchFilters.ActiveFiltersCount` | src/components/dashboard/SearchFilters.tsx:56 | the badge count is zero exactly when no source is selected and the floor is not positive; it is the number of selections, or one more |
| `SearchFilters.ToggleMovesCountByOne` | src/components/dashboard/SearchFilters.tsx:41-56 | on a duplicate-free selection each toggle raises or lowers the badge count by exactly one |
| `SearchFilters.FilterPanel.constructor` | src/components/dashboard/SearchFilters.tsx:28-33 | the panel starts with an empty search and no filters, and the page holds the same |
| `SearchFilters.FilterPanel.HandleSearch` | src/components/dashboard/SearchFilters.tsx:35-38 | the new search text is stored and passed on; the criteria do not change; the page stays in step |
| `SearchFilters.FilterPanel.ToggleSource` | src/components/dashboard/SearchFilters.tsx:40-48 | the sources become the toggled list; the floor and the search text stay; the page gets the same criteria |
| `SearchFilters.FilterPanel.ClearFilters` | src/components/dashboard/SearchFilters.tsx:50-56 | the criteria become no sources and floor 0, so the badge count is 0; the search text stays; the page gets the same criteria |
| `SearchFilters.FilterPanel.SetMinScore` | src/components/dashboard/SearchFilters.tsx:141-145 | the floor becomes the slider value; the sources and the search text stay; the page gets the same criteria |
| `SearchFilters.ClearRestoresFullList` | src/components/dashboard/SearchFilters.tsx:35-54 | after any search and toggle, clearing the filters and the search shows every lead whose probability is not negative |
| `LeadTable.SourceLabel` | src/components/dashboard/LeadTable.tsx:22-28 | each label has its tag's length, starts with a capital, and lowers letter by letter to the tag |
| `LeadTable.SourceLabelLowersToTag` | src/components/dashboard/LeadTable.tsx:22-28 | lowering a label gives back its source's tag |
| `LeadTable.SourceLabelInjective` | src/components/dashboard/LeadTable.tsx:22-28 | the label map covers all five sources, and different sources get different labels |
| `LeadTable.LocationCell` | src/components/dashboard/LeadTable.tsx:96-105 | the cell shows the person's location first, and has a second, `HQ:` line exactly when the company HQ differs from that location; the HQ can always be read from the cell |
| `LeadTable.NextExpanded` | src/components/dashboard/LeadTable.tsx:136 | clicking the open row closes it; clicking any other row makes it the open row |
| `LeadTable.DetailRows` | src/components/dashboard/LeadTable.tsx:147 | a lead gets a detail row exactly when its id equals the expanded id |
| `LeadTable.NoMatchNoDetailRow` | src/components/dashboard/LeadTable.tsx:147 | no detail row is rendered when no lead has the expanded id |
| `LeadTable.AtMostOneDetailRow` | src/components/dashboard/LeadTable.tsx:147 | with distinct lead ids at most one detail row is rendered |
| `LeadTable.ExpandedLeadIsTheDetailRow` | src/components/dashboard/LeadTable.tsx:147 | with distinct ids the expanded lead's row is the only detail row |
| `LeadTable.RowExpansion.constructor` | src/components/dashboard/LeadTable.tsx:31 | initially no row is expanded |
| `LeadTable.RowExpansion.ToggleRow` | src/components/dashboard/LeadTable.tsx:136 | the clicked row's open state flips, and no other row is open afterwards |
| `LeadTable.OpeningAnotherRowClosesTheFirst` | src/components/dashboard/LeadTable.tsx:136 | opening one row and then another leaves only the second one open |

## Left out

- Browser download (src/pages/Index.tsx:80-86): `Blob`, object URLs and the anchor click are browser calls. The model stops at the CSV text.
- Export file name (src/pages/Index.tsx:84): it reads the wall clock.
- Export toast (src/pages/Index.tsx:88) and the other notifications: these only display messages.
- `avgScore` and the "% of total" figure (src/pages/Index.tsx:51,125), and the bar width in src/components/dashboard/ScoreBreakdown.tsx:21: they use floating-point division and `Math.round`.
- `mockLeads` and `scoringCriteria` (src/data/mockLeads) are not part of this model. The lead list is a parameter everywhere, so the `totalWeight` sum over `scoringCriteria` is not modelled.
- The `showFilters` panel toggle, the sidebar, the stats cards and all markup and styling: these are presentation only.
- The unused `LeadFilter` interface (src/types/lead.ts:31-37): nothing refers to it.
- Text.Lower: models `toLowerCase` for ASCII letters only. Full Unicode case mapping, including characters whose lower-case form changes the length, is not modelled.
- Numbers: `rank`, `probability` and the score-breakdown parts are unbounded integers in the model, while JavaScript numbers are doubles. The rendering in `Decimal` agrees with `${n}` only for integers below 2^53 in magnitude: above that, doubles are not exact, and from 1e21 on `${n}` prints an exponent (`1e+21`). Non-integer numbers, and their text, are not modelled.
- SearchFilters.FilterPanel.SetMinScore: takes the slider value as an integer. The 0-100 range comes from the range input and is not enforced.
- Rendering is not modelled. React's asynchronous state batching is not modelled either: each handler's state change is taken as immediate, as it is once the component re-renders.
