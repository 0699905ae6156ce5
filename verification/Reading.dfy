// What a reader takes from an issue: the title, and from the lines above the report's block the
// report id, the metadata cells and the heading. The reader knows the shape of a line and nothing
// of the printer (internal/publish/format.go).
module Reading {
  import opened Wrappers
  import opened Utf8
  import opened Format
  import opened Runes
  import opened Fences

  // ----- Values -----

  // What a metadata value makes of one code point.
  function OnOneLine(cp: int): (r: string)
    requires Scalar(cp)
  {
    if cp in {0x09, 0x0A, 0x0D} then " " else if cp < 0x20 then "" else Encoding(cp)
  }

  // Code point by code point: line breaks and tabs become spaces, other controls go, everything else
  // stays; a byte that belongs to no code point becomes U+FFFD.
  lemma MapToLineExact(s: string)
    ensures s == "" ==> MapToLine(s) == ""
    ensures forall cp :: Starts(s, cp) ==> MapToLine(s) == OnOneLine(cp) + MapToLine(s[|Encoding(cp)|..])
    ensures s != "" && (forall cp :: !Starts(s, cp)) ==> MapToLine(s) == Encoding(0xFFFD) + MapToLine(s[1..])
  {
    hide Encoding;
    if s != "" {
      WidthExact(s);
      assert Encoding(0xFFFD) == REPLACEMENT by { ReplacementIs(); }
      forall cp | Starts(s, cp)
        ensures MapToLine(s) == OnOneLine(cp) + MapToLine(s[|Encoding(cp)|..])
      {
        FirstOnLine(s, cp);
      }
    } else {
      forall cp
        ensures !Starts(s, cp)
      {
        EncodingNotEmpty(s, cp);
      }
    }
  }

  lemma ReplacementIs()
    ensures Encoding(0xFFFD) == REPLACEMENT
  {
    assert Encoding(0xFFFD) == [0xEF as char, 0xBF as char, 0xBD as char];
    assert REPLACEMENT == [0xEF as char, 0xBF as char, 0xBD as char];
  }

  lemma EncodingNotEmpty(s: string, cp: int)
    ensures Starts(s, cp) ==> s != ""
  {
  }

  lemma FirstOnLine(s: string, cp: int)
    requires Starts(s, cp)
    ensures MapToLine(s) == OnOneLine(cp) + MapToLine(s[|Encoding(cp)|..])
  {
    EncodingComplete(s, cp);
    var w := |Encoding(cp)|;
    assert s[..w] == Encoding(cp);
    assert w == 1 <==> cp < 0x80;
    assert w == 1 ==> s[0] == Encoding(cp)[0] && [s[0]] == Encoding(cp);
  }

  // A metadata value, whatever it held, cannot leave its code span, its table cell or its line: it
  // has no control character, every backtick is a quote, every pipe a slash, and everything else is
  // what was trimmed.
  lemma CellIsSafe(value: string)
    ensures var v, cell := OneLine(value), SanitizeCode(OneLine(value));
            && |cell| == |v|
            && forall i :: 0 <= i < |cell| ==>
                 && cell[i] as int >= 0x20
                 && cell[i] == if v[i] == '`' then '\'' else if v[i] == '|' then '/' else v[i]
  {
    hide OneLine;
    OneLineControlFree(value);
    SanitizeExact(OneLine(value));
  }

  lemma SanitizeExact(s: string)
    ensures var r := SanitizeCode(s);
            && |r| == |s|
            && forall i :: 0 <= i < |s| ==> r[i] == if s[i] == '`' then '\'' else if s[i] == '|' then '/' else s[i]
  {
    ReplaceAllExact(s, '`', '\'');
    ReplaceAllExact(ReplaceAll(s, '`', '\''), '|', '/');
  }

  // ----- The reader -----

  datatype Item =
    | ReportId(id: string)
    | Columns(left: string, right: string)
    | Cell(field: string, value: string)
    | Heading(text: string)
    | Note

  function UpTo(s: string, c: char): (n: nat)
    ensures n <= |s| && c !in s[..n] && (n < |s| ==> s[n] == c)
  {
    if s == "" || s[0] == c then 0 else 1 + UpTo(s[1..], c)
  }

  // The text between the first two marks of a line, and what follows.
  function Between(line: string, mark: char): Option<(string, string, string)> {
    var k := UpTo(line, mark);
    if k == |line| then None
    else
      var rest := line[k + 1..];
      var n := UpTo(rest, mark);
      if n == |rest| then None else Some((line[..k], rest[..n], rest[n + 1..]))
  }

  // The text inside one space on each side.
  function Inside(s: string): Option<string> {
    if |s| >= 2 && s[0] == ' ' && s[|s| - 1] == ' ' then Some(s[1..|s| - 1]) else None
  }

  // | field | `value` | or | left | right |
  function ReadCell(line: string): Option<Item> {
    match Between(line, '|')
    case None => None
    case Some((before, left, rest)) =>
      var k := UpTo(rest, '|');
      if before != "" || Inside(left).None? || Inside(rest[..k]).None? || rest[k..] != "|" then None
      else
        var right := Inside(rest[..k]).value;
        match Between(right, '`')
        case None => Some(Columns(Inside(left).value, right))
        case Some((gap, value, after)) =>
          if gap == "" && after == "" then Some(Cell(Inside(left).value, value)) else None
  }

  // **Report ID:** `id`
  function ReadId(line: string): Option<Item> {
    match Between(line, '`')
    case None => None
    case Some((before, id, after)) =>
      if before == "**Report ID:** " && after == "" then Some(ReportId(id)) else None
  }

  function ReadLine(line: string): seq<Item> {
    if line == "" then []
    else if line[0] == '|' then (match ReadCell(line) case Some(i) => [i] case None => [])
    else if line[0] == '*' then (match ReadId(line) case Some(i) => [i] case None => [])
    else if "### " <= line then [Heading(line[4..])]
    else if line[0] == '_' then [Note]
    else []
  }

  // The items above the first fenced block.
  function ReadHead(s: string): seq<Item>
    decreases |s|
  {
    if s == "" || Opening(Line(s)).Some? then [] else ReadLine(Line(s)) + ReadHead(s[LineEnd(s)..])
  }

  // ----- What it reads in the head -----

  // h reads as these items wherever it stands.
  ghost predicate Reads(h: string, items: seq<Item>) {
    forall x :: ReadHead(h + x) == items + ReadHead(x)
  }

  lemma ReadsNothing()
    ensures Reads("", [])
  {
    assert forall x: string :: "" + x == x;
  }

  lemma ReadsBoth(g: string, a: seq<Item>, h: string, b: seq<Item>)
    requires Reads(g, a) && Reads(h, b)
    ensures Reads(g + h, a + b)
  {
    hide ReadHead;
    forall x
      ensures ReadHead((g + h) + x) == (a + b) + ReadHead(x)
    {
      assert (g + h) + x == g + (h + x);
      assert ReadHead(h + x) == b + ReadHead(x);
    }
  }

  lemma ReadsLine(l: string)
    requires Plain(l) && Opening(l).None?
    ensures Reads(l + "\n", ReadLine(l))
  {
    hide Opening, ReadLine;
    forall x
      ensures ReadHead((l + "\n") + x) == ReadLine(l) + ReadHead(x)
    {
      LineOf(l, x);
    }
  }

  // A line that starts with neither a space nor a fence mark, and the empty line after it.
  lemma ReadsParagraph(l: string, items: seq<Item>)
    requires Plain(l) && l != "" && l[0] != ' ' && l[0] != '`' && l[0] != '~' && ReadLine(l) == items
    ensures Reads(l + "\n", items) && Reads("\n", []) && Reads(l + "\n\n", items)
  {
    hide ReadLine, Reads;
    OpensNothing(l);
    ReadsLine(l);
    OpensNothing("");
    assert "" + "\n" == "\n" && ReadLine("") == [] by { EmptyLine(); }
    ReadsLine("");
    ReadsBoth(l + "\n", items, "\n", []);
    assert (l + "\n") + "\n" == l + "\n\n" && items + [] == items;
  }

  lemma EmptyLine()
    ensures ReadLine("") == []
  {
  }

  lemma OpensNothing(l: string)
    requires l != "" ==> l[0] != ' ' && l[0] != '`' && l[0] != '~'
    ensures Opening(l).None?
  {
  }

  lemma FirstMark(s: string, c: char, n: nat)
    requires n <= |s| && (n < |s| ==> s[n] == c) && forall i :: 0 <= i < n ==> s[i] != c
    ensures UpTo(s, c) == n
  {
  }

  lemma UpToIs(a: string, c: char, b: string)
    requires c !in a
    ensures UpTo(a + [c] + b, c) == |a|
  {
    FirstMark(a + [c] + b, c, |a|);
  }

  lemma BetweenIs(a: string, c: char, m: string, z: string)
    requires c !in a && c !in m
    ensures Between(a + [c] + (m + [c] + z), c) == Some((a, m, z))
  {
    UpToIs(a, c, m + [c] + z);
    UpToIs(m, c, z);
    var s := a + [c] + (m + [c] + z);
    assert s[|a| + 1..] == m + [c] + z && s[..|a|] == a;
    assert (m + [c] + z)[..|m|] == m && (m + [c] + z)[|m| + 1..] == z;
  }

  // A code span cannot be left early.
  lemma SanitizedHasNoMark(s: string)
    ensures '`' !in SanitizeCode(s) && '|' !in SanitizeCode(s)
  {
    SanitizeExact(s);
  }

  lemma Inner(s: string)
    ensures Inside(" " + s + " ") == Some(s)
  {
    assert (" " + s + " ")[1..|s| + 1] == s;
  }

  lemma CellLine(left: string, right: string)
    ensures "| " + left + " | " + right + " |"
            == "" + ['|'] + ((" " + left + " ") + ['|'] + ((" " + right + " ") + ['|'] + ""))
  {
  }

  // The two cells of a line.
  lemma TwoCells(left: string, right: string)
    requires '|' !in left && '|' !in right
    ensures var line := "| " + left + " | " + right + " |";
            ReadLine(line) == match Between(right, '`')
                              case None => [Columns(left, right)]
                              case Some((gap, value, after)) =>
                                if gap == "" && after == "" then [Cell(left, value)] else []
  {
    hide UpTo, Between, Inside;
    var line := "| " + left + " | " + right + " |";
    var a, b := " " + left + " ", " " + right + " ";
    CellLine(left, right);
    BetweenIs("", '|', a, b + ['|'] + "");
    UpToIs(b, '|', "");
    LastMark(b, '|');
    Inner(left);
    Inner(right);
    assert line[0] == '|';
  }

  lemma LastMark(b: string, c: char)
    ensures (b + [c] + "")[..|b|] == b && (b + [c] + "")[|b|..] == [c]
  {
  }

  lemma CellRead(field: string, value: string)
    requires '|' !in field && '`' !in value && '|' !in value
    ensures ReadLine("| " + field + " | `" + value + "` |") == [Cell(field, value)]
  {
    hide UpTo, Between, ReadLine;
    var right := "`" + value + "`";
    TwoCells(field, right);
    assert right == "" + ['`'] + (value + ['`'] + "");
    BetweenIs("", '`', value, "");
    assert "| " + field + " | `" + value + "` |" == "| " + field + " | " + right + " |";
  }

  lemma IdRead(id: string)
    requires '`' !in id
    ensures ReadLine("**Report ID:** `" + id + "`") == [ReportId(id)]
  {
    hide UpTo, Between;
    var line := "**Report ID:** `" + id + "`";
    assert "**Report ID:** `" == "**Report ID:** " + ['`'];
    assert line == "**Report ID:** " + ['`'] + (id + ['`'] + "");
    BetweenIs("**Report ID:** ", '`', id, "");
  }

  // A field under its label, if anything is left of its value.
  function Kept(field: string, value: string): seq<Item> {
    if OneLine(value) == "" then [] else [Cell(field, SanitizeCode(OneLine(value)))]
  }

  lemma ReadsRow(field: string, value: string)
    requires Plain(field) && '|' !in field
    ensures Reads(Row(field, value), Kept(field, value))
  {
    hide OneLine, SanitizeCode, Reads, ReadLine, Opening;
    var v := OneLine(value);
    if v == "" {
      ReadsNothing();
    } else {
      OneLinePlain(value);
      SanitizePlain(v);
      SanitizedHasNoMark(v);
      var l := "| " + field + " | `" + SanitizeCode(v) + "` |";
      CellRead(field, SanitizeCode(v));
      OpensNothing(l);
      ReadsLine(l);
      assert Row(field, value) == l + "\n";
    }
  }

  // Every field that holds anything stands in its row, under its own label and in this order.
  lemma TableReadsBack(rep: Report)
    ensures Reads(TableHead() + Table(Rows(rep)),
                  TableItems() + Kept("App version", rep.appVersion) + Kept("Platform", rep.platform)
                  + Kept("OS version", rep.osVersion) + Kept("Device", rep.device)
                  + Kept("Client timestamp", rep.clientTimestamp))
  {
    hide Reads, Kept, Row, TableItems;
    var r0, r1 := Row("App version", rep.appVersion), Row("Platform", rep.platform);
    var r2 := Row("OS version", rep.osVersion);
    var r3, r4 := Row("Device", rep.device), Row("Client timestamp", rep.clientTimestamp);
    var k0, k1 := Kept("App version", rep.appVersion), Kept("Platform", rep.platform);
    var k2 := Kept("OS version", rep.osVersion);
    var k3, k4 := Kept("Device", rep.device), Kept("Client timestamp", rep.clientTimestamp);
    ReadsRow("App version", rep.appVersion);
    ReadsRow("Platform", rep.platform);
    ReadsRow("OS version", rep.osVersion);
    ReadsRow("Device", rep.device);
    ReadsRow("Client timestamp", rep.clientTimestamp);
    TableOf(rep);
    ReadsTableHead();
    var t := TableItems();
    ReadsBoth(TableHead(), t, r0, k0);
    ReadsBoth(TableHead() + r0, t + k0, r1, k1);
    ReadsBoth(TableHead() + r0 + r1, t + k0 + k1, r2, k2);
    ReadsBoth(TableHead() + r0 + r1 + r2, t + k0 + k1 + k2, r3, k3);
    ReadsBoth(TableHead() + r0 + r1 + r2 + r3, t + k0 + k1 + k2 + k3, r4, k4);
    assert TableHead() + r0 + r1 + r2 + r3 + r4 == TableHead() + (r0 + (r1 + (r2 + (r3 + r4))));
  }

  lemma TableOf(rep: Report)
    ensures Table(Rows(rep))
            == Row("App version", rep.appVersion) + (Row("Platform", rep.platform) + (Row("OS version", rep.osVersion)
               + (Row("Device", rep.device) + Row("Client timestamp", rep.clientTimestamp))))
  {
    hide Row;
    var rows := Rows(rep);
    assert rows[1..][1..] == rows[2..] && rows[2..][1..] == rows[3..] && rows[3..][1..] == rows[4..];
    assert rows[4..] == [rows[4]] && rows[4..][1..] == [];
    assert Table(rows[4..]) == Row(rows[4].0, rows[4].1) + "" == Row(rows[4].0, rows[4].1);
    assert Table(rows[3..]) == Row(rows[3].0, rows[3].1) + Table(rows[4..]);
    assert Table(rows[2..]) == Row(rows[2].0, rows[2].1) + Table(rows[3..]);
    assert Table(rows[1..]) == Row(rows[1].0, rows[1].1) + Table(rows[2..]);
  }

  // The two lines that make it a table.
  function TableItems(): seq<Item> { [Columns("Field", "Value"), Columns("---", "---")] }

  lemma ReadsTableHead()
    ensures Reads(TableHead(), TableItems())
  {
    hide Reads, ReadLine;
    var a, b := "| Field | Value |", "| --- | --- |";
    HeadLinesRead();
    ReadsParagraph(a, [Columns("Field", "Value")]);
    ReadsParagraph(b, [Columns("---", "---")]);
    ReadsBoth(a + "\n", [Columns("Field", "Value")], b + "\n", [Columns("---", "---")]);
    assert "| Field | Value |\n" == a + "\n" && "| --- | --- |\n" == b + "\n";
    assert [Columns("Field", "Value")] + [Columns("---", "---")] == TableItems();
  }

  lemma HeadLinesRead()
    ensures ReadLine("| Field | Value |") == [Columns("Field", "Value")]
    ensures ReadLine("| --- | --- |") == [Columns("---", "---")]
  {
    hide UpTo, ReadLine, Between;
    TwoCells("Field", "Value");
    TwoCells("---", "---");
    NoTick("Value");
    NoTick("---");
    assert "| " + "Field" + " | " + "Value" + " |" == "| Field | Value |";
    assert "| " + "---" + " | " + "---" + " |" == "| --- | --- |";
  }

  lemma NoTick(s: string)
    requires '`' !in s
    ensures Between(s, '`').None?
  {
    FirstMark(s, '`', |s|);
  }

  // ----- The head and the body -----

  // The id, then for a report its metadata and its heading, and for anything else the note that it
  // is no report and the other heading.
  function Expected(id: string, rep: Option<Report>): seq<Item> {
    [ReportId(SanitizeCode(id))]
    + match rep
      case Some(r) =>
        TableItems()
        + Kept("App version", r.appVersion) + Kept("Platform", r.platform) + Kept("OS version", r.osVersion)
        + Kept("Device", r.device) + Kept("Client timestamp", r.clientTimestamp) + [Heading("Report")]
      case None => [Note, Heading("Decrypted content")]
  }

  lemma ReadsIntro()
    ensures Reads(Intro(), [])
  {
    hide Reads, ReadCell, ReadId, IntroOpening, IntroClosing;
    IntroOpeningPlain();
    IntroClosingPlain();
    PlainAppend(IntroOpening(), IntroClosing());
    ReadsParagraph(IntroOpening() + IntroClosing(), []);
  }

  lemma ReadsIdLine(id: string)
    requires Plain(id)
    ensures Reads("**Report ID:** `" + SanitizeCode(id) + "`\n\n", [ReportId(SanitizeCode(id))])
  {
    hide Reads, ReadLine, SanitizeCode;
    var line := "**Report ID:** `" + SanitizeCode(id) + "`";
    SanitizePlain(id);
    SanitizedHasNoMark(id);
    IdRead(SanitizeCode(id));
    ReadsParagraph(line, [ReportId(SanitizeCode(id))]);
    assert line + "\n\n" == "**Report ID:** `" + SanitizeCode(id) + "`\n\n";
  }

  lemma ReadsHeading(text: string)
    requires Plain(text)
    ensures Reads("### " + text + "\n\n", [Heading(text)])
  {
    hide Reads, ReadCell, ReadId;
    var l := "### " + text;
    assert l[0] == '#' && l[4..] == text;
    ReadsParagraph(l, [Heading(text)]);
  }

  lemma ReadsHeadings()
    ensures Reads("\n### Report\n\n", [Heading("Report")])
    ensures Reads("### Decrypted content\n\n", [Heading("Decrypted content")])
  {
    hide Reads;
    ReadsHeading("Report");
    ReadsHeading("Decrypted content");
    OpensNothing("");
    ReadsLine("");
    assert "" + "\n" == "\n" && ReadLine("") == [];
    ReadsBoth("\n", [], "### " + "Report" + "\n\n", [Heading("Report")]);
    assert [] + [Heading("Report")] == [Heading("Report")];
    HeadingTexts();
  }

  lemma HeadingTexts()
    ensures "\n" + ("### " + "Report" + "\n\n") == "\n### Report\n\n"
    ensures "### " + "Decrypted content" + "\n\n" == "### Decrypted content\n\n"
  {
  }

  lemma ReadsNote()
    ensures Reads(MismatchNote() + "\n\n", [Note])
  {
    hide Reads, ReadCell, ReadId, MismatchNote;
    NotePlain();
    ReadsParagraph(MismatchNote(), [Note]);
  }

  lemma ReadsDetails(rep: Option<Report>)
    ensures Reads(Details(rep), Expected("", rep)[1..])
  {
    hide Reads, TableHead, Table, Rows, MismatchNote, Kept, SanitizeCode, TableItems;
    ReadsHeadings();
    match rep
    case Some(r) =>
      TableReadsBack(r);
      var cells := TableItems() + Kept("App version", r.appVersion) + Kept("Platform", r.platform)
                   + Kept("OS version", r.osVersion) + Kept("Device", r.device)
                   + Kept("Client timestamp", r.clientTimestamp);
      ReadsBoth(TableHead() + Table(Rows(r)), cells, "\n### Report\n\n", [Heading("Report")]);
      assert Expected("", rep)[1..] == cells + [Heading("Report")];
    case None =>
      ReadsNote();
      ReadsBoth(MismatchNote() + "\n\n", [Note], "### Decrypted content\n\n", [Heading("Decrypted content")]);
      assert [Note] + [Heading("Decrypted content")] == Expected("", rep)[1..];
      assert MismatchNote() + "\n\n" + "### Decrypted content\n\n" == Details(rep);
  }

  lemma ReadsHead(id: string, rep: Option<Report>)
    requires Plain(id)
    ensures Reads(Head(id, rep), Expected(id, rep))
  {
    hide Reads, Intro, Details, SanitizeCode, Kept;
    var line, item := "**Report ID:** `" + SanitizeCode(id) + "`\n\n", [ReportId(SanitizeCode(id))];
    ReadsIntro();
    ReadsIdLine(id);
    ReadsDetails(rep);
    ReadsBoth(line, item, Details(rep), Expected("", rep)[1..]);
    ReadsBoth(Intro(), [], line + Details(rep), item + Expected("", rep)[1..]);
    assert Intro() + (line + Details(rep)) == Head(id, rep);
    assert [] + (item + Expected("", rep)[1..]) == Expected(id, rep);
  }

  lemma EndsWithFooter(head: string, fence: string, text: string)
    ensures exists front ::
              Assemble(head, fence, text)
              == front + ("\n\n" + "---\nLabels: `bug-report`, `automated`, `needs-triage`.\n")
  {
    var front := head + (fence + ("\n" + (text + ("\n" + fence))));
    assert Assemble(head, fence, text) == front + Footer();
  }

  // Above the block, the body of an issue tells the report's id, whether the payload was a report,
  // and every metadata field that holds anything, in order and under its own label.
  lemma HeadReadsBack(id: string, rep: Option<Report>, plaintext: string)
    requires Plain(id)
    requires var text := ReportText(rep, plaintext);
             Overhead(id, rep, text) + Min(RuneCount(text), RuneCount(Marker())) <= MAX_ISSUE_BODY_RUNES
    ensures ReadHead(Body(id, rep, plaintext)) == Expected(id, rep)
    ensures exists front ::
              Body(id, rep, plaintext)
              == front + ("\n\n" + "---\nLabels: `bug-report`, `automated`, `needs-triage`.\n")
  {
    hide RuneCount, Truncate, Head, Marker, Footer, FenceLen, Ticks, ReadLine, Expected, Opening, LineLen, Fit;
    var text := ReportText(rep, plaintext);
    var n := FenceLen(text);
    var shown := Fit(text, MAX_ISSUE_BODY_RUNES - Overhead(id, rep, text));
    FenceAtLeastThree(text);
    BodyUncut(id, rep, plaintext);
    ReadsHead(id, rep);
    var rest := shown + ("\n" + (Ticks(n) + Footer()));
    FenceLine(n, rest);
    assert Ticks(n) + ("\n" + rest) == Ticks(n) + "\n" + rest;
    assert ReadHead(Ticks(n) + "\n" + rest) == [];
    assert Expected(id, rep) + [] == Expected(id, rep);
    EndsWithFooter(Head(id, rep), Ticks(n), shown);
  }

  // ----- The title -----

  // The text a title is cut from.
  function WholeTitle(app: string, platform: string): string {
    if app == "" && platform == "" then "Bug report"
    else if platform == "" then "Bug report: " + app
    else if app == "" then "Bug report on " + platform
    else "Bug report: " + app + " on " + platform
  }

  lemma WholeIs(app: string, platform: string)
    ensures "Bug report" + (if app == "" then "" else ": " + app) + (if platform == "" then "" else " on " + platform)
            == WholeTitle(app, platform)
  {
    assert "Bug report" + ": " == "Bug report: " && "Bug report" + " on " == "Bug report on ";
    assert "Bug report" + (": " + app) == ("Bug report" + ": ") + app;
    assert "Bug report" + "" == "Bug report";
    assert "Bug report" + (" on " + platform) == ("Bug report" + " on ") + platform;
    assert ("Bug report: " + app + " on ") + platform == ("Bug report: " + app) + (" on " + platform);
  }

  // The title names the app version and the platform, each if there is anything to name, and is as
  // much of that as 200 runes hold.
  ghost predicate TitleTells(rep: Option<Report>, title: string) {
    if rep.None? then title == "Automated bug report"
    else
      var whole := WholeTitle(OneLine(rep.value.appVersion), OneLine(rep.value.platform));
      title <= whole && Boundary(whole, |title|) && RuneCount(title) == Min(200, RuneCount(whole))
  }

  lemma TitleExact(rep: Option<Report>)
    ensures TitleTells(rep, Title(rep))
  {
    hide OneLine, Truncate, RuneCount, Boundary;
    if rep.Some? {
      var app, platform := OneLine(rep.value.appVersion), OneLine(rep.value.platform);
      var whole := WholeTitle(app, platform);
      WholeIs(app, platform);
      assert Title(rep) == Truncate(whole, 200);
      TruncateIsPrefix(whole, 200);
      TruncateCount(whole, 200);
    }
  }
}
