/**
 * The CSV text built by `handleExport` in src/pages/Index.tsx: a fixed
 * nine-column header and one row per visible lead, every cell wrapped in
 * double quotes WITHOUT escaping, cells joined by ',' and rows by '\n'.
 * This is not the format of section 2 of RFC 4180 (no CRLF, no quote
 * doubling); the model follows what the page does.
 */
module CsvExporter {
  import opened LeadTypes
  import opened Decimal

  const Headers: seq<string> := ["Rank", "Score", "Name", "Title", "Company", "Location", "HQ", "Email", "Source"]

  /** The first line of every export. */
  const HeaderLine: string :=
    "\"Rank\",\"Score\",\"Name\"," + "\"Title\",\"Company\"," + "\"Location\",\"HQ\"," + "\"Email\",\"Source\""

  /** The nine values exported for a lead, in column order. */
  function LeadCells(l: Lead): (cells: seq<string>)
    ensures |cells| == |Headers|
  {
    [IntToString(l.rank), IntToString(l.probability), l.name, l.title, l.company,
     l.personLocation, l.companyHQ, l.email, SourceTag(l.source)]
  }

  /** The template literal `"${cell}"`: the cell between two added double quotes. */
  function Quote(cell: string): (q: string)
    ensures |q| == |cell| + 2 && q[0] == '"' && q[|q| - 1] == '"'
  {
    "\"" + cell + "\""
  }

  /**
   * `Array.prototype.join(sep)`: separators between the parts, "" for no
   * parts. The text starts with the first part.
   */
  function Join(parts: seq<string>, sep: char): (r: string)
    ensures parts == [] ==> r == []
    ensures parts != [] ==> parts[0] <= r
  {
    if parts == [] then ""
    else if |parts| == 1 then parts[0]
    else parts[0] + [sep] + Join(parts[1..], sep)
  }

  function QuotedCells(cells: seq<string>): (r: seq<string>)
    ensures |r| == |cells|
    ensures forall i :: 0 <= i < |cells| ==> r[i] == Quote(cells[i])
  {
    if cells == [] then [] else [Quote(cells[0])] + QuotedCells(cells[1..])
  }

  /** `row.map(cell => "${cell}").join(',')`: it holds exactly the newlines of its cells. */
  function RowText(cells: seq<string>): (row: string)
    ensures Occurrences(row, '\n') == SumOccurrences(cells, '\n')
  {
    JoinOccurrences(QuotedCells(cells), ',', '\n');
    QuotedOccurrences(cells, '\n');
    Join(QuotedCells(cells), ',')
  }

  function LeadRows(leads: seq<Lead>): (r: seq<string>)
    ensures |r| == |leads|
    ensures forall i :: 0 <= i < |leads| ==> r[i] == RowText(LeadCells(leads[i]))
  {
    if leads == [] then [] else [RowText(LeadCells(leads[0]))] + LeadRows(leads[1..])
  }

  /**
   * The whole export: header row, then one row per lead, joined by '\n'. It
   * starts with the header row, and holds one newline per lead plus those the
   * lead fields carry.
   */
  function CsvContent(leads: seq<Lead>): (csv: string)
    ensures RowText(Headers) <= csv
    ensures Occurrences(csv, '\n') == |leads| + FieldNewlines(leads)
  {
    HeaderRowWithoutNewline();
    NewlinesAfterHeader(RowText(Headers), leads);
    Join([RowText(Headers)] + LeadRows(leads), '\n')
  }

  // ---------------------------------------------------------------------
  // Reading the text back: lines, and the quoted cells of one line.
  // ---------------------------------------------------------------------

  /** `String.prototype.split(sep)` for a one-character separator. */
  function Split(s: string, sep: char): (r: seq<string>)
    ensures |r| >= 1
    decreases |s|
  {
    if s == [] then [""]
    else if s[0] == sep then [""] + Split(s[1..], sep)
    else
      var rest := Split(s[1..], sep);
      [[s[0]] + rest[0]] + rest[1..]
  }

  function Occurrences(s: string, c: char): (n: nat)
    ensures n == 0 <==> c !in s
  {
    if s == [] then 0 else (if s[0] == c then 1 else 0) + Occurrences(s[1..], c)
  }

  function SumOccurrences(parts: seq<string>, c: char): nat
  {
    if parts == [] then 0 else Occurrences(parts[0], c) + SumOccurrences(parts[1..], c)
  }

  /** Newlines that the lead fields themselves carry into the export. */
  function FieldNewlines(leads: seq<Lead>): nat
  {
    if leads == [] then 0 else SumOccurrences(LeadCells(leads[0]), '\n') + FieldNewlines(leads[1..])
  }

  /** First position of `c` in `s`. */
  function IndexOf(s: string, c: char): (r: Option<nat>)
    ensures r.None? <==> c !in s
    ensures r.Some? ==> r.value < |s| && s[r.value] == c && c !in s[..r.value]
  {
    if s == [] then None
    else if s[0] == c then Some(0)
    else match IndexOf(s[1..], c)
      case None => None
      case Some(j) =>
        assert s[..j + 1] == [s[0]] + s[1..][..j];
        Some(j + 1)
  }

  /** Reads one `"`-wrapped cell: it ends at the next `"`; returns the cell and what follows. */
  function ReadCell(s: string): (r: Option<(string, string)>)
    ensures r.Some? ==> |r.value.1| < |s|
  {
    if |s| < 2 || s[0] != '"' then None
    else match IndexOf(s[1..], '"')
      case None => None
      case Some(j) => Some((s[1..j + 1], s[j + 2..]))
  }

  /** Reads a line of `"`-wrapped cells separated by ','. */
  function ReadRow(s: string): Option<seq<string>>
    decreases |s|
  {
    match ReadCell(s)
    case None => None
    case Some((cell, rest)) =>
      if rest == [] then Some([cell])
      else if rest[0] != ',' then None
      else match ReadRow(rest[1..])
        case None => None
        case Some(cells) => Some([cell] + cells)
  }

  // ---------------------------------------------------------------------
  // Lemmas about splitting and counting.
  // ---------------------------------------------------------------------

  lemma {:induction false} OccurrencesConcat(a: string, b: string, c: char)
    ensures Occurrences(a + b, c) == Occurrences(a, c) + Occurrences(b, c)
    decreases |a|
  {
    if a != [] {
      assert (a + b)[0] == a[0] && (a + b)[1..] == a[1..] + b;
      OccurrencesConcat(a[1..], b, c);
    } else {
      assert a + b == b;
    }
  }

  /** Splitting yields one more piece than there are separators. */
  lemma {:induction false} SplitCount(s: string, sep: char)
    ensures |Split(s, sep)| == Occurrences(s, sep) + 1
    decreases |s|
  {
    if s != [] {
      SplitCount(s[1..], sep);
    }
  }

  lemma {:induction false} SplitWithoutSeparator(p: string, sep: char)
    requires sep !in p
    ensures Split(p, sep) == [p]
    decreases |p|
  {
    if p != [] {
      SplitWithoutSeparator(p[1..], sep);
      assert [p[0]] + p[1..] == p;
    }
  }

  lemma {:induction false} SplitAtFirstSeparator(p: string, t: string, sep: char)
    requires sep !in p
    ensures Split(p + [sep] + t, sep) == [p] + Split(t, sep)
    decreases |p|
  {
    var s := p + [sep] + t;
    if p == [] {
      assert s[1..] == t;
    } else {
      assert s[1..] == p[1..] + [sep] + t;
      SplitAtFirstSeparator(p[1..], t, sep);
      assert [p[0]] + p[1..] == p;
    }
  }

  /** Split undoes Join when no part contains the separator. */
  lemma {:induction false} SplitJoin(parts: seq<string>, sep: char)
    requires |parts| >= 1
    requires forall i :: 0 <= i < |parts| ==> sep !in parts[i]
    ensures Split(Join(parts, sep), sep) == parts
    decreases |parts|
  {
    if |parts| == 1 {
      SplitWithoutSeparator(parts[0], sep);
    } else {
      SplitJoin(parts[1..], sep);
      SplitAtFirstSeparator(parts[0], Join(parts[1..], sep), sep);
      assert [parts[0]] + parts[1..] == parts;
    }
  }

  /** Separators in a joined text: those Join inserts plus those the parts carry. */
  lemma {:induction false} JoinOccurrences(parts: seq<string>, sep: char, c: char)
    ensures Occurrences(Join(parts, sep), c)
         == (if c == sep && |parts| > 0 then |parts| - 1 else 0) + SumOccurrences(parts, c)
    decreases |parts|
  {
    if |parts| == 1 {
      assert SumOccurrences(parts[1..], c) == 0;
    } else if |parts| > 1 {
      JoinOccurrences(parts[1..], sep, c);
      OccurrencesConcat(parts[0], [sep], c);
      OccurrencesConcat(parts[0] + [sep], Join(parts[1..], sep), c);
      assert Occurrences([sep], c) == if c == sep then 1 else 0;
    }
  }

  lemma {:induction false} QuotedOccurrences(cells: seq<string>, c: char)
    requires c != '"'
    ensures SumOccurrences(QuotedCells(cells), c) == SumOccurrences(cells, c)
    decreases |cells|
  {
    if cells != [] {
      QuotedOccurrences(cells[1..], c);
      OccurrencesConcat("\"" + cells[0], "\"", c);
      OccurrencesConcat("\"", cells[0], c);
      assert QuotedCells(cells)[1..] == QuotedCells(cells[1..]);
    }
  }

  lemma {:induction false} RowsNewlines(leads: seq<Lead>)
    ensures SumOccurrences(LeadRows(leads), '\n') == FieldNewlines(leads)
    decreases |leads|
  {
    if leads != [] {
      RowsNewlines(leads[1..]);
      assert LeadRows(leads)[1..] == LeadRows(leads[1..]);
    }
  }

  lemma {:induction false} JoinSuffix(parts: seq<string>, sep: char, k: nat)
    requires k + 1 < |parts|
    ensures Join(parts[k..], sep) == parts[k] + [sep] + Join(parts[k + 1..], sep)
  {
    assert parts[k..][1..] == parts[k + 1..];
  }

  lemma RowOfNine(cells: seq<string>)
    requires |cells| == 9
    ensures RowText(cells) == Quote(cells[0]) + "," + Quote(cells[1]) + "," + Quote(cells[2]) + ","
      + Quote(cells[3]) + "," + Quote(cells[4]) + "," + Quote(cells[5]) + "," + Quote(cells[6]) + ","
      + Quote(cells[7]) + "," + Quote(cells[8])
  {
    var q := QuotedCells(cells);
    assert q[8..] == [q[8]];
    JoinSuffix(q, ',', 7);
    JoinSuffix(q, ',', 6);
    JoinSuffix(q, ',', 5);
    JoinSuffix(q, ',', 4);
    JoinSuffix(q, ',', 3);
    JoinSuffix(q, ',', 2);
    JoinSuffix(q, ',', 1);
    JoinSuffix(q, ',', 0);
    assert q[0..] == q;
  }

  lemma HeaderChunks()
    ensures Quote("Rank") + "," + Quote("Score") + "," + Quote("Name") + "," == "\"Rank\",\"Score\",\"Name\","
    ensures Quote("Title") + "," + Quote("Company") + "," == "\"Title\",\"Company\","
  {
  }

  lemma HeaderChunksRest()
    ensures Quote("Location") + "," + Quote("HQ") + "," == "\"Location\",\"HQ\","
    ensures Quote("Email") + "," + Quote("Source") == "\"Email\",\"Source\""
  {
  }

  lemma HeaderLineQuoted()
    ensures HeaderLine == Quote("Rank") + "," + Quote("Score") + "," + Quote("Name") + ","
      + Quote("Title") + "," + Quote("Company") + "," + Quote("Location") + "," + Quote("HQ") + ","
      + Quote("Email") + "," + Quote("Source")
  {
    HeaderChunks();
    HeaderChunksRest();
  }

  lemma HeaderRowWithoutNewline()
    ensures '\n' !in RowText(Headers)
  {
    forall i | 0 <= i < |Headers| ensures '\n' !in Headers[i] {
      assert Headers[i] in Headers;
    }
    RowWithoutNewline(Headers);
  }

  /** The header row is the nine column names, each quoted, separated by ','. */
  lemma HeaderRow()
    ensures RowText(Headers) == HeaderLine
  {
    RowOfNine(Headers);
    HeaderLineQuoted();
  }

  lemma RowWithoutNewline(cells: seq<string>)
    requires forall i :: 0 <= i < |cells| ==> '\n' !in cells[i]
    ensures '\n' !in RowText(cells)
  {
    SumOccurrencesZero(cells, '\n');
  }

  lemma NewlinesAfterHeader(head: string, leads: seq<Lead>)
    requires '\n' !in head
    ensures Occurrences(Join([head] + LeadRows(leads), '\n'), '\n') == |leads| + FieldNewlines(leads)
  {
    var rows := [head] + LeadRows(leads);
    JoinOccurrences(rows, '\n', '\n');
    assert rows[1..] == LeadRows(leads);
    RowsNewlines(leads);
  }

  /**
   * The export has one line per lead plus the header, plus one more for
   * every newline a lead field carries (nothing is escaped).
   */
  lemma CsvLineCount(leads: seq<Lead>)
    ensures |Split(CsvContent(leads), '\n')| == |leads| + 1 + FieldNewlines(leads)
  {
    SplitCount(CsvContent(leads), '\n');
  }

  /** No text field of any lead contains a newline. */
  ghost predicate NoNewlineFields(leads: seq<Lead>)
  {
    forall i :: 0 <= i < |leads| ==> forall k :: 0 <= k < |Headers| ==> '\n' !in LeadCells(leads[i])[k]
  }

  lemma {:induction false} SumOccurrencesZero(parts: seq<string>, c: char)
    requires forall i :: 0 <= i < |parts| ==> c !in parts[i]
    ensures SumOccurrences(parts, c) == 0
    decreases |parts|
  {
    if parts != [] {
      SumOccurrencesZero(parts[1..], c);
    }
  }

  lemma {:induction false} NoNewlineMeansNoFieldNewlines(leads: seq<Lead>)
    requires NoNewlineFields(leads)
    ensures FieldNewlines(leads) == 0
    decreases |leads|
  {
    if leads != [] {
      NoNewlineMeansNoFieldNewlines(leads[1..]);
      SumOccurrencesZero(LeadCells(leads[0]), '\n');
    }
  }

  lemma SplitRows(head: string, leads: seq<Lead>)
    requires '\n' !in head
    requires NoNewlineFields(leads)
    ensures Split(Join([head] + LeadRows(leads), '\n'), '\n') == [head] + LeadRows(leads)
  {
    var rows := [head] + LeadRows(leads);
    forall i | 0 <= i < |rows| ensures '\n' !in rows[i] {
      if i > 0 {
        RowWithoutNewline(LeadCells(leads[i - 1]));
      }
    }
    SplitJoin(rows, '\n');
  }

  /**
   * When no field holds a newline the export has exactly |leads| + 1 lines:
   * the header line, then each lead's row in input order.
   */
  lemma CsvLines(leads: seq<Lead>)
    requires NoNewlineFields(leads)
    ensures |Split(CsvContent(leads), '\n')| == |leads| + 1
    ensures Split(CsvContent(leads), '\n')[0] == HeaderLine
    ensures forall i :: 0 <= i < |leads| ==> Split(CsvContent(leads), '\n')[i + 1] == RowText(LeadCells(leads[i]))
  {
    HeaderRowWithoutNewline();
    HeaderRow();
    SplitRows(RowText(Headers), leads);
  }

  // ---------------------------------------------------------------------
  // Reading one row back.
  // ---------------------------------------------------------------------

  lemma QuoteIndex(cell: string, t: string)
    requires '"' !in cell
    ensures IndexOf(cell + "\"" + t, '"') == Some(|cell|)
  {
    var s := cell + "\"" + t;
    var r := IndexOf(s, '"');
    assert s[..|cell|] == cell;
    assert s[|cell|] == '"';
  }

  /** A quoted cell without inner quotes reads back whole, leaving what follows. */
  lemma ReadQuotedCell(c: string, tail: string)
    requires '"' !in c
    ensures ReadCell(Quote(c) + tail) == Some((c, tail))
  {
    var s := Quote(c) + tail;
    var body := c + "\"" + tail;
    assert s == "\"" + body;
    assert |s| >= 2 && s[0] == '"' && s[1..] == body;
    QuoteIndex(c, tail);
    assert s[1..|c| + 1] == c;
    assert s[|c| + 2..] == tail;
  }

  lemma RowTextFirstCell(cells: seq<string>)
    requires |cells| >= 1
    ensures RowText(cells) == Quote(cells[0]) + (if |cells| == 1 then "" else "," + RowText(cells[1..]))
  {
    assert QuotedCells(cells)[1..] == QuotedCells(cells[1..]);
  }

  /** A row reads back as its cells when no cell contains a double quote. */
  lemma {:induction false} ReadRowText(cells: seq<string>)
    requires |cells| >= 1
    requires forall i :: 0 <= i < |cells| ==> '"' !in cells[i]
    ensures ReadRow(RowText(cells)) == Some(cells)
    decreases |cells|
  {
    var tail := if |cells| == 1 then "" else "," + RowText(cells[1..]);
    RowTextFirstCell(cells);
    ReadQuotedCell(cells[0], tail);
    if |cells| == 1 {
      assert [cells[0]] == cells;
    } else {
      ReadRowText(cells[1..]);
      assert tail[1..] == RowText(cells[1..]);
      assert [cells[0]] + cells[1..] == cells;
    }
  }

  /** Every exported lead row reads back as the lead's nine values, in column order. */
  lemma LeadRowReadsBack(l: Lead)
    requires forall k :: 0 <= k < |Headers| ==> '"' !in LeadCells(l)[k]
    ensures ReadRow(RowText(LeadCells(l))) == Some(LeadCells(l))
  {
    ReadRowText(LeadCells(l));
  }

  /**
   * Quotes are not escaped, so the serialisation is lossy: a single cell
   * holding `a","b` is written exactly like the two cells `a` and `b`.
   */
  lemma UnescapedQuoteCollides()
    ensures RowText(["a\",\"b"]) == RowText(["a", "b"])
  {
    var one := QuotedCells(["a\",\"b"]);
    var two := QuotedCells(["a", "b"]);
    assert one == [Quote("a\",\"b")];
    assert two == [Quote("a"), Quote("b")];
    assert two[1..] == [Quote("b")];
    assert Join(two, ',') == Quote("a") + "," + Quote("b");
  }
}
