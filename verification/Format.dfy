// Rendering of a decrypted report into an issue title and body (internal/publish/format.go).
// Strings are byte strings: one character per byte.
module Format {
  import opened Wrappers
  import opened Utf8

  const MAX_ISSUE_BODY_RUNES := 65536
  const MAX_TITLE_RUNES := 200

  // The bytes of U+2026, horizontal ellipsis, and of U+FFFD, which replaces invalid bytes.
  const ELLIPSIS := "\U{E2}\U{80}\U{A6}"
  const REPLACEMENT := "\U{EF}\U{BF}\U{BD}"

  // Appended to a report that had to be cut.
  function Marker(): string {
    "\n\n[" + ELLIPSIS + " truncated: report exceeded GitHub's " + "65,536-character issue body limit " + ELLIPSIS + "]"
  }

  // The fixed sentences, in short pieces.
  function IntroOpening(): string {
    "This issue was filed " + "automatically by the " + "LibreMail bug-report "
    + "ingest pipeline (opt-in "
  }

  function IntroClosing(): string {
    "debug reports from the " + "app). PII was " + "best-effort scrubbed "
    + "before storage; see " + "`docs/privacy.md`."
  }

  function Intro(): string {
    IntroOpening() + IntroClosing() + "\n\n"
  }

  function MismatchNote(): string {
    "_Payload did not match " + "the expected report " + "schema; showing the "
    + "decrypted content " + "verbatim._"
  }

  function Footer(): string {
    "\n\n" + "---\nLabels: `bug-report`, `automated`, `needs-triage`.\n"
  }

  // The ingest payload; decoding JSON into it is left to a parameter.
  datatype Report = Report(
    appVersion: string, platform: string, report: string,
    osVersion: string, device: string, clientTimestamp: string)

  // ----- Metadata values -----

  function ReplaceAll(s: string, a: char, b: char): string {
    if s == "" then "" else [if s[0] == a then b else s[0]] + ReplaceAll(s[1..], a, b)
  }

  function SanitizeCode(s: string): string {
    ReplaceAll(ReplaceAll(s, '`', '\''), '|', '/')
  }

  // Line breaks and tabs become spaces, other control characters go, invalid bytes are replaced.
  function MapToLine(s: string): string
    decreases |s|
  {
    if s == "" then ""
    else
      var w := Width(s);
      var c := s[0];
      (if w > 1 then s[..w]
       else if c == '\n' || c == '\r' || c == '\t' then " "
       else if c as int < 0x20 then ""
       else if c as int < 0x80 then [c]
       else REPLACEMENT) + MapToLine(s[w..])
  }

  // Bytes of the white-space rune at the front of s, or 0 (the White_Space property).
  function SpaceAt(s: string): nat
    ensures SpaceAt(s) <= |s|
  {
    var at := i => if 0 <= i < |s| then s[i] as int else -1;
    if 9 <= at(0) <= 13 || at(0) == 32 then 1
    else if at(0) == 0xC2 && (at(1) == 0x85 || at(1) == 0xA0) then 2
    else if at(0) == 0xE1 && at(1) == 0x9A && at(2) == 0x80 then 3
    else if at(0) == 0xE2 && at(1) == 0x80
        && (0x80 <= at(2) <= 0x8A || at(2) == 0xA8 || at(2) == 0xA9 || at(2) == 0xAF) then 3
    else if at(0) == 0xE2 && at(1) == 0x81 && at(2) == 0x9F then 3
    else if at(0) == 0xE3 && at(1) == 0x80 && at(2) == 0x80 then 3
    else 0
  }

  function TrimLeft(s: string): string
    decreases |s|
  {
    if SpaceAt(s) == 0 then s else TrimLeft(s[SpaceAt(s)..])
  }

  function TrimRight(s: string): string
    decreases |s|
  {
    var n := |s|;
    if n >= 1 && SpaceAt(s[n - 1..]) == 1 then TrimRight(s[..n - 1])
    else if n >= 2 && SpaceAt(s[n - 2..]) == 2 then TrimRight(s[..n - 2])
    else if n >= 3 && SpaceAt(s[n - 3..]) == 3 then TrimRight(s[..n - 3])
    else s
  }

  function TrimSpace(s: string): string {
    TrimRight(TrimLeft(s))
  }

  function OneLine(s: string): string {
    TrimSpace(MapToLine(s))
  }

  function Row(field: string, value: string): string {
    var v := OneLine(value);
    if v == "" then "" else "| " + field + " | `" + SanitizeCode(v) + "` |\n"
  }

  function Rows(rep: Report): seq<(string, string)> {
    [("App version", rep.appVersion), ("Platform", rep.platform), ("OS version", rep.osVersion),
     ("Device", rep.device), ("Client timestamp", rep.clientTimestamp)]
  }

  function Table(rows: seq<(string, string)>): string {
    if rows == [] then "" else Row(rows[0].0, rows[0].1) + Table(rows[1..])
  }

  function TableHead(): string { "| Field | Value |\n" + "| --- | --- |\n" }

  method MetadataTable(rep: Report) returns (b: string)
    ensures b == TableHead() + Table(Rows(rep))
  {
    hide TableHead, Rows, OneLine, SanitizeCode;
    var rows := Rows(rep);
    b := TableHead();
    for i := 0 to |rows|
      invariant b + Table(rows[i..]) == TableHead() + Table(rows)
    {
      TableStep(b, rows, i);
      var v := OneLine(rows[i].1);
      if v == "" { continue; }
      b := b + ("| " + rows[i].0 + " | `" + SanitizeCode(v) + "` |\n");
    }
  }

  lemma TableStep(b: string, rows: seq<(string, string)>, i: nat)
    requires i < |rows|
    ensures b + Table(rows[i..]) == b + Row(rows[i].0, rows[i].1) + Table(rows[i + 1..])
    ensures b + "" == b
  {
    hide Row;
    assert rows[i..][1..] == rows[i + 1..];
  }

  // ----- The fence -----

  function Ticks(n: nat): string {
    seq(n, _ => '`')
  }

  // s holds n backticks in a row starting at i.
  ghost predicate RunFrom(s: string, i: int, n: int) {
    0 <= i <= i + n <= |s| && forall j :: i <= j < i + n ==> s[j] == '`'
  }

  ghost predicate HasRun(s: string, n: int) {
    exists i :: RunFrom(s, i, n)
  }

  function LeadingRun(s: string): (n: nat)
    ensures RunFrom(s, 0, n) && !RunFrom(s, 0, n + 1)
    decreases |s|
  {
    if s != "" && s[0] == '`' then 1 + LeadingRun(s[1..]) else 0
  }

  function LongestRun(s: string): nat {
    if s == "" then 0
    else
      var rest := LongestRun(s[1..]);
      if LeadingRun(s) > rest then LeadingRun(s) else rest
  }

  lemma {:induction false} LongestRunExact(s: string, n: nat)
    ensures HasRun(s, n) <==> n <= LongestRun(s)
  {
    if s == "" {
      assert n == 0 ==> RunFrom(s, 0, n);
    } else {
      var t := s[1..];
      LongestRunExact(t, n);
      if HasRun(t, n) {
        var i :| RunFrom(t, i, n);
        assert RunFrom(s, i + 1, n);
      }
      if n <= LeadingRun(s) { assert RunFrom(s, 0, n); }
      if HasRun(s, n) && n > LeadingRun(s) {
        var i :| RunFrom(s, i, n);
        assert i > 0;
        assert RunFrom(t, i - 1, n);
      }
    }
  }

  function FenceLen(s: string): nat {
    if LongestRun(s) + 1 < 3 then 3 else LongestRun(s) + 1
  }

  // The fence is the shortest run of at least three backticks that is longer than every run of
  // backticks in the report.
  lemma FenceIsShortest(s: string, n: nat)
    ensures FenceLen(s) <= n <==> n >= 3 && !HasRun(s, n)
  {
    LongestRunExact(s, n);
  }

  // p ends with a run of exactly n backticks.
  ghost predicate EndsWithRun(p: string, n: int) {
    RunFrom(p, |p| - n, n) && (n < |p| ==> p[|p| - n - 1] != '`')
  }

  // Runs of p + q that lie in p are runs of p, and the converse.
  lemma RunInPrefix(p: string, q: string, j: int, k: int)
    ensures j + k <= |p| ==> (RunFrom(p + q, j, k) <==> RunFrom(p, j, k))
  {
    if j + k <= |p| {
      assert forall i :: 0 <= i < j + k ==> (p + q)[i] == p[i];
    }
  }

  lemma RunUpToTick(p: string, n: int, j: int, k: int)
    requires EndsWithRun(p, n) && k > n + 1
    ensures RunFrom(p + "`", j, k) ==> j + k <= |p|
  {
    assert n < |p| ==> (p + "`")[|p| - n - 1] == p[|p| - n - 1];
  }

  lemma RunUpToOther(p: string, q: string, j: int, k: int)
    requires k > 0 && forall c :: c in q ==> c != '`'
    ensures RunFrom(p + q, j, k) ==> j + k <= |p|
  {
    if |p| < j + k <= |p + q| {
      assert (p + q)[j + k - 1] == q[j + k - 1 - |p|] && q[j + k - 1 - |p|] in q;
    }
  }

  // q has p's longest run, or one of m backticks at its end, and none longer.
  lemma LongestOfExtension(p: string, q: string, m: int, k: int)
    requires m >= LongestRun(p) && k == m + 1
    requires m > LongestRun(p) ==> HasRun(p + q, m)
    requires forall j :: RunFrom(p + q, j, k) ==> j + k <= |p|
    ensures LongestRun(p + q) == m
  {
    LongestRunExact(p, LongestRun(p));
    LongestRunExact(p, k);
    LongestRunExact(p + q, m);
    LongestRunExact(p + q, k);
    var i :| RunFrom(p, i, LongestRun(p));
    RunInPrefix(p, q, i, LongestRun(p));
    forall j | RunFrom(p + q, j, k)
      ensures RunFrom(p, j, k)
    {
      RunInPrefix(p, q, j, k);
    }
  }

  lemma TickExtendsRun(p: string, n: int)
    requires EndsWithRun(p, n)
    ensures EndsWithRun(p + "`", n + 1)
    ensures LongestRun(p + "`") == if n + 1 > LongestRun(p) then n + 1 else LongestRun(p)
  {
    var m := if n + 1 > LongestRun(p) then n + 1 else LongestRun(p);
    var k := m + 1;
    assert RunFrom(p + "`", |p| - n, n + 1);
    forall j | RunFrom(p + "`", j, k)
      ensures j + k <= |p|
    {
      RunUpToTick(p, n, j, k);
    }
    LongestOfExtension(p, "`", m, k);
  }

  lemma OtherEndsRun(p: string, q: string)
    requires q != "" && forall c :: c in q ==> c != '`'
    ensures EndsWithRun(p + q, 0)
    ensures LongestRun(p + q) == LongestRun(p)
  {
    var k := LongestRun(p) + 1;
    assert q[|q| - 1] in q && (p + q)[|p + q| - 1] == q[|q| - 1];
    forall j | RunFrom(p + q, j, k)
      ensures j + k <= |p|
    {
      RunUpToOther(p, q, j, k);
    }
    LongestOfExtension(p, q, k - 1, k);
  }

  // fenceFor: one pass over the runes, counting the current and the longest run.
  method FenceFor(s: string) returns (fence: string)
    ensures fence == Ticks(FenceLen(s))
  {
    hide RunFrom, EndsWithRun, LongestRun;
    var longest, run, i := 0, 0, 0;
    NoRuns();
    while i < |s|
      invariant 0 <= i <= |s| && 0 <= run
      invariant EndsWithRun(s[..i], run) && LongestRun(s[..i]) == longest
    {
      var w := Width(s[i..]);
      RuneBytes(s[i..]);
      assert s[..i + w] == s[..i] + s[i..][..w];
      if s[i] == '`' {
        assert s[i..][..w] == "`";
        TickExtendsRun(s[..i], run);
        run := run + 1;
        if run > longest { longest := run; }
      } else {
        OtherEndsRun(s[..i], s[i..][..w]);
        run := 0;
      }
      i := i + w;
    }
    assert s[..i] == s;
    var n := longest + 1;
    if n < 3 { n := 3; }
    fence := Ticks(n);
  }

  lemma NoRuns()
    ensures EndsWithRun("", 0) && LongestRun("") == 0
  {
  }

  // Only a one-byte rune can be a backtick, and no byte of a longer one is.
  lemma RuneBytes(s: string)
    requires s != ""
    ensures s[0] == '`' ==> Width(s) == 1
    ensures forall j :: 0 < j < Width(s) ==> s[j] != '`'
  {
  }

  // ----- The body -----

  function Head(id: string, rep: Option<Report>): string {
    Intro() + "**Report ID:** `" + SanitizeCode(id) + "`\n\n" + Details(rep)
  }

  function Details(rep: Option<Report>): string {
    match rep
    case Some(r) => TableHead() + Table(Rows(r)) + "\n### Report\n\n"
    case None => MismatchNote() + "\n\n" + "### Decrypted content\n\n"
  }

  function ReportText(rep: Option<Report>, plaintext: string): string {
    match rep
    case Some(r) => r.report
    case None => plaintext
  }

  // Runes of everything but the report text.
  function Overhead(id: string, rep: Option<Report>, text: string): int {
    RuneCount(Head(id, rep)) + RuneCount(Footer()) + 2 * FenceLen(text) + 2
  }

  function Fit(text: string, budget: int): string {
    if RuneCount(text) <= budget then text
    else Truncate(text, budget - RuneCount(Marker())) + Marker()
  }

  function Assemble(head: string, fence: string, text: string): string {
    head + (fence + ("\n" + (text + ("\n" + (fence + Footer())))))
  }

  function Body(id: string, rep: Option<Report>, plaintext: string): string {
    var text := ReportText(rep, plaintext);
    var budget := MAX_ISSUE_BODY_RUNES - Overhead(id, rep, text);
    Truncate(Assemble(Head(id, rep), Ticks(FenceLen(text)), Fit(text, budget)), MAX_ISSUE_BODY_RUNES)
  }

  method BuildBody(id: string, rep: Option<Report>, plaintext: string) returns (body: string)
    ensures body == Body(id, rep, plaintext)
  {
    hide RuneCount, Truncate, SanitizeCode, Intro, MismatchNote, TableHead, Table, Rows, Footer, Marker, LongestRun;
    var head := Intro();
    head := head + "**Report ID:** `";
    head := head + SanitizeCode(id);
    head := head + "`\n\n";

    var reportText := plaintext;
    var details;
    if rep.Some? {
      var table := MetadataTable(rep.value);
      details := table + "\n### Report\n\n";
      reportText := rep.value.report;
    } else {
      details := MismatchNote() + "\n\n" + "### Decrypted content\n\n";
    }
    head := head + details;

    var fence := FenceFor(reportText);
    TicksCount(FenceLen(reportText));
    var overhead := RuneCount(head) + RuneCount(Footer()) + 2 * RuneCount(fence) + 2;
    var budget := MAX_ISSUE_BODY_RUNES - overhead;
    if RuneCount(reportText) > budget {
      var keep := budget - RuneCount(Marker());
      NothingKept(reportText, keep);
      if keep < 0 { keep := 0; }
      var kept := TruncateRunes(reportText, keep);
      reportText := kept + Marker();
    }

    var b := head;
    b := b + fence;
    b := b + "\n";
    b := b + reportText;
    b := b + "\n";
    b := b + fence;
    b := b + Footer();
    Reassociate(head, fence, "\n", reportText, Footer());
    body := TruncateRunes(b, MAX_ISSUE_BODY_RUNES);
  }

  lemma Reassociate(a: string, b: string, c: string, d: string, e: string)
    ensures a + b + c + d + c + b + e == a + (b + (c + (d + (c + (b + e)))))
  {
  }

  lemma NothingKept(s: string, n: int)
    ensures n <= 0 ==> Truncate(s, n) == Truncate(s, 0) == ""
  {
  }

  lemma {:induction false} TicksCount(n: nat)
    ensures RuneCount(Ticks(n)) == n
  {
    if n > 0 {
      RuneBytes(Ticks(n));
      assert Ticks(n)[1..] == Ticks(n - 1);
      TicksCount(n - 1);
    }
  }

  // ----- The title -----

  function Title(rep: Option<Report>): string {
    match rep
    case None => "Automated bug report"
    case Some(r) =>
      var app, platform := OneLine(r.appVersion), OneLine(r.platform);
      Truncate("Bug report" + (if app == "" then "" else ": " + app)
                            + (if platform == "" then "" else " on " + platform), MAX_TITLE_RUNES)
  }

  // formatIssue; decode is JSON decoding into a Report.
  function FormatIssue(decode: string -> Option<Report>, id: string, plaintext: string): (string, string) {
    var rep := decode(plaintext);
    (Title(rep), Body(id, rep, plaintext))
  }

  // ----- The size of the body -----

  lemma AssembleCount(head: string, n: nat, text: string)
    ensures RuneCount(Assemble(head, Ticks(n), text))
            == RuneCount(head) + RuneCount(Footer()) + 2 * n + 2 + RuneCount(text)
  {
    var fence := Ticks(n);
    TicksCount(n);
    AppendCount(fence, Footer());
    assert RuneCount("\n") == 1;
    AppendCount("\n", fence + Footer());
    AppendCount(text, "\n" + (fence + Footer()));
    AppendCount("\n", text + ("\n" + (fence + Footer())));
    AppendCount(fence, "\n" + (text + ("\n" + (fence + Footer()))));
    AppendCount(head, fence + ("\n" + (text + ("\n" + (fence + Footer())))));
  }

  lemma MarkerStartsLine()
    ensures Marker() != "" && Marker()[0] == '\n' && !Continuation('\n')
  {
  }

  lemma FitCount(text: string, budget: int)
    ensures budget >= RuneCount(Marker()) || RuneCount(text) <= budget ==>
              RuneCount(Fit(text, budget)) == Min(RuneCount(text), budget)
    ensures budget < RuneCount(Marker()) && RuneCount(text) > budget ==> Fit(text, budget) == Marker()
  {
    hide RuneCount, Truncate, Marker, Continuation;
    MarkerStartsLine();
    if RuneCount(text) > budget {
      var cut := Truncate(text, budget - RuneCount(Marker()));
      TruncateCount(text, budget - RuneCount(Marker()));
      AppendCount(cut, Marker());
      NothingKept(text, budget - RuneCount(Marker()));
      if budget < RuneCount(Marker()) { assert cut == "" && "" + Marker() == Marker(); }
    }
  }

  // The body has exactly as many runes as it would untruncated, up to the cap; so it never
  // exceeds the cap, and it never gives up more of the report than it must.
  lemma BodySize(id: string, rep: Option<Report>, plaintext: string)
    ensures var text := if rep.Some? then rep.value.report else plaintext;
            RuneCount(Body(id, rep, plaintext)) == Min(65536, Overhead(id, rep, text) + RuneCount(text))
  {
    hide RuneCount, Truncate, Head, FenceLen, Footer, Marker;
    var text := ReportText(rep, plaintext);
    var budget := MAX_ISSUE_BODY_RUNES - Overhead(id, rep, text);
    FitCount(text, budget);
    AssembleCount(Head(id, rep), FenceLen(text), Fit(text, budget));
    TruncateCount(Assemble(Head(id, rep), Ticks(FenceLen(text)), Fit(text, budget)), MAX_ISSUE_BODY_RUNES);
  }

  // The final cut is idle unless the fixed sections leave no room even for the marker.
  lemma BodyUncut(id: string, rep: Option<Report>, plaintext: string)
    requires var text := ReportText(rep, plaintext);
             Overhead(id, rep, text) + Min(RuneCount(text), RuneCount(Marker())) <= MAX_ISSUE_BODY_RUNES
    ensures var text := ReportText(rep, plaintext);
            Body(id, rep, plaintext)
            == Assemble(Head(id, rep), Ticks(FenceLen(text)), Fit(text, MAX_ISSUE_BODY_RUNES - Overhead(id, rep, text)))
  {
    hide RuneCount, Truncate, Head, FenceLen, Footer, Marker;
    var text := ReportText(rep, plaintext);
    var budget := MAX_ISSUE_BODY_RUNES - Overhead(id, rep, text);
    FitCount(text, budget);
    AssembleCount(Head(id, rep), FenceLen(text), Fit(text, budget));
    TruncateAll(Assemble(Head(id, rep), Ticks(FenceLen(text)), Fit(text, budget)), MAX_ISSUE_BODY_RUNES);
  }
}
