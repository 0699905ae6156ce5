// A line-based reader of fenced code blocks (section 4.5 of CommonMark Spec 0.31.2), and the
// proof that it undoes the body printer: whatever a report contains, the block it is shown in
// ends exactly where the report ends.
module Fences {
  import opened Wrappers
  import opened Utf8
  import opened Format

  // ----- Lines (section 2.1): ended by LF, CR LF or CR -----

  function LineLen(s: string): (n: nat)
    ensures n <= |s|
    ensures n < |s| ==> s[n] == '\n' || s[n] == '\r'
    ensures forall i :: 0 <= i < n ==> s[i] != '\n' && s[i] != '\r'
    decreases |s|
  {
    if s == "" || s[0] == '\n' || s[0] == '\r' then 0 else 1 + LineLen(s[1..])
  }

  function Line(s: string): string { s[..LineLen(s)] }

  // Where the next line starts.
  function LineEnd(s: string): (n: nat)
    ensures n <= |s| && (s != "" ==> n > 0)
  {
    var n := LineLen(s);
    if n == |s| then n
    else if s[n] == '\r' && n + 1 < |s| && s[n + 1] == '\n' then n + 2
    else n + 1
  }

  // ----- Fences -----

  datatype Fence = Fence(mark: char, length: nat)

  // The raw lines between the fences, each with its line ending; indent is the opening fence's
  // own indentation, which the content would be stripped of.
  datatype Block = Block(indent: nat, info: string, content: string)

  function RunOf(s: string, c: char): (n: nat)
    ensures n <= |s| && forall i :: 0 <= i < n ==> s[i] == c
    ensures n < |s| ==> s[n] != c
    decreases |s|
  {
    if s == "" || s[0] != c then 0 else 1 + RunOf(s[1..], c)
  }

  // A line that opens a block: up to three spaces, at least three backticks or tildes, and an
  // info string, which after backticks holds no backtick.
  function Opening(line: string): Option<(nat, Fence, string)> {
    var k := RunOf(line, ' ');
    if k > 3 || k == |line| then None
    else
      var c := line[k];
      var n := RunOf(line[k..], c);
      var info := line[k + n..];
      if (c == '`' || c == '~') && n >= 3 && (c == '`' ==> '`' !in info) then Some((k, Fence(c, n), info)) else None
  }

  predicate Blank(s: string) {
    forall c :: c in s ==> c == ' ' || c == '\t'
  }

  // A line that closes it: up to three spaces, at least as many of the same mark, then blanks.
  predicate Closing(line: string, f: Fence) {
    var k := RunOf(line, ' ');
    k <= 3 && RunOf(line[k..], f.mark) >= f.length && Blank(line[k + RunOf(line[k..], f.mark)..])
  }

  function Content(s: string, f: Fence): string
    decreases |s|
  {
    if s == "" || Closing(Line(s), f) then "" else s[..LineEnd(s)] + Content(s[LineEnd(s)..], f)
  }

  // The first fenced block of a document.
  function ReadBlock(s: string): Option<Block>
    decreases |s|
  {
    if s == "" then None
    else
      match Opening(Line(s))
      case Some((indent, f, info)) => Some(Block(indent, info, Content(s[LineEnd(s)..], f)))
      case None => ReadBlock(s[LineEnd(s)..])
  }

  // ----- The head opens no block -----

  predicate Plain(s: string) {
    forall i :: 0 <= i < |s| ==> s[i] != '\n' && s[i] != '\r'
  }

  // Whole lines, none of which opens a block.
  ghost predicate Harmless(h: string)
    decreases |h|
  {
    h == "" ||
    (LineLen(h) < |h| && h[LineLen(h)] == '\n' && Opening(Line(h)).None? && Harmless(h[LineLen(h) + 1..]))
  }

  lemma LineOf(l: string, x: string)
    requires Plain(l)
    ensures LineLen(l + "\n" + x) == |l| && Line(l + "\n" + x) == l && LineEnd(l + "\n" + x) == |l| + 1
    ensures (l + "\n" + x)[|l| + 1..] == x
  {
    var s := l + "\n" + x;
    assert s[|l|] == '\n';
    assert forall i :: 0 <= i < |l| ==> s[i] == l[i] && l[i] in l;
  }

  // The reader passes over harmless lines.
  lemma {:induction false} PassesHarmless(h: string, x: string)
    requires Harmless(h)
    ensures ReadBlock(h + x) == ReadBlock(x)
    decreases |h|
  {
    if h == "" {
      assert h + x == x;
    } else {
      var l, t := Line(h), h[LineLen(h) + 1..];
      assert Plain(l);
      assert h + x == l + "\n" + (t + x);
      LineOf(l, t + x);
      PassesHarmless(t, x);
    }
  }

  lemma HarmlessCons(l: string, x: string)
    requires Plain(l) && Opening(l).None? && Harmless(x)
    ensures Harmless(l + "\n" + x)
  {
    hide Opening;
    LineOf(l, x);
    assert (l + "\n" + x)[|l|] == '\n';
  }

  lemma HarmlessParts(h: string)
    requires Harmless(h) && h != ""
    ensures var l, t := Line(h), h[|Line(h)| + 1..];
            h == l + "\n" + t && Plain(l) && Opening(l).None? && Harmless(t)
  {
    hide Opening;
  }

  lemma {:induction false} HarmlessAppend(g: string, h: string)
    requires Harmless(g) && Harmless(h)
    ensures Harmless(g + h)
    decreases |g|
  {
    hide Opening, LineLen, Harmless, Plain;
    if g == "" {
      assert g + h == h;
    } else {
      HarmlessParts(g);
      var l, t := Line(g), g[|Line(g)| + 1..];
      HarmlessAppend(t, h);
      HarmlessCons(l, t + h);
      assert (l + "\n" + t) + h == l + "\n" + (t + h);
    }
  }

  // A plain line that starts with neither a space nor a fence mark is harmless.
  lemma HarmlessLine(l: string)
    requires Plain(l) && (l != "" ==> l[0] != ' ' && l[0] != '`' && l[0] != '~')
    ensures Harmless(l + "\n")
  {
    assert l + "\n" == l + "\n" + "";
    LineOf(l, "");
  }

  lemma {:induction false} ReplaceAllPlain(s: string, a: char, b: char)
    requires Plain(s) && b != '\n' && b != '\r'
    ensures Plain(ReplaceAll(s, a, b))
  {
    if s != "" {
      assert s[0] in s && forall c :: c in s[1..] ==> c in s;
      ReplaceAllPlain(s[1..], a, b);
    }
  }

  lemma SanitizePlain(s: string)
    requires Plain(s)
    ensures Plain(SanitizeCode(s))
  {
    ReplaceAllPlain(s, '`', '\'');
    ReplaceAllPlain(ReplaceAll(s, '`', '\''), '|', '/');
  }

  predicate ControlFree(s: string) {
    forall i :: 0 <= i < |s| ==> s[i] as int >= 0x20
  }

  lemma {:induction false} MapToLineControlFree(s: string)
    ensures ControlFree(MapToLine(s))
    decreases |s|
  {
    if s != "" {
      MapToLineControlFree(s[Width(s)..]);
      LongRuneControlFree(s);
    }
  }

  lemma LongRuneControlFree(s: string)
    requires s != ""
    ensures Width(s) > 1 ==> ControlFree(s[..Width(s)])
  {
  }

  lemma {:induction false} TrimLeftSlice(s: string)
    ensures forall c :: c in TrimLeft(s) ==> c in s
    decreases |s|
  {
    hide SpaceAt;
    if SpaceAt(s) != 0 { TrimLeftSlice(s[SpaceAt(s)..]); }
  }

  lemma {:induction false} TrimRightSlice(s: string)
    ensures forall c :: c in TrimRight(s) ==> c in s
    decreases |s|
  {
    hide SpaceAt;
    var n := |s|;
    if n >= 1 && SpaceAt(s[n - 1..]) == 1 { TrimRightSlice(s[..n - 1]); }
    else if n >= 2 && SpaceAt(s[n - 2..]) == 2 { TrimRightSlice(s[..n - 2]); }
    else if n >= 3 && SpaceAt(s[n - 3..]) == 3 { TrimRightSlice(s[..n - 3]); }
  }

  lemma OneLineControlFree(s: string)
    ensures ControlFree(OneLine(s))
  {
    MapToLineControlFree(s);
    TrimLeftSlice(MapToLine(s));
    TrimRightSlice(TrimLeft(MapToLine(s)));
    assert forall i :: 0 <= i < |OneLine(s)| ==> OneLine(s)[i] in OneLine(s);
  }

  lemma OneLinePlain(s: string)
    ensures Plain(OneLine(s))
  {
    OneLineControlFree(s);
  }

  lemma {:induction false} ReplaceAllExact(s: string, a: char, b: char)
    ensures var r := ReplaceAll(s, a, b);
            |r| == |s| && forall i :: 0 <= i < |s| ==> r[i] == if s[i] == a then b else s[i]
  {
    if s != "" { ReplaceAllExact(s[1..], a, b); }
  }

  lemma RowHarmless(field: string, value: string)
    requires Plain(field)
    ensures Harmless(Row(field, value))
  {
    hide OneLine, SanitizeCode;
    var v := OneLine(value);
    OneLinePlain(value);
    SanitizePlain(v);
    if v != "" {
      var l := "| " + field + " | `" + SanitizeCode(v) + "` |";
      HarmlessLine(l);
      assert Row(field, value) == l + "\n";
    }
  }

  lemma {:induction false} TableHarmless(rows: seq<(string, string)>)
    requires forall i :: 0 <= i < |rows| ==> Plain(rows[i].0)
    ensures Harmless(Table(rows))
  {
    if rows != [] {
      RowHarmless(rows[0].0, rows[0].1);
      TableHarmless(rows[1..]);
      HarmlessAppend(Row(rows[0].0, rows[0].1), Table(rows[1..]));
    }
  }

  // ----- The report cannot close its own block -----

  lemma FooterStartsLine()
    ensures Footer() != "" && Footer()[0] == '\n'
  {
  }

  lemma TicksRun(n: nat, x: string)
    requires x == "" || x[0] != '`'
    ensures RunOf(Ticks(n) + x, '`') == n
  {
    var s := Ticks(n) + x;
    assert forall i :: 0 <= i < n ==> s[i] == '`';
    assert n < |s| ==> s[n] == x[0];
  }

  lemma TicksPlain(n: nat)
    ensures Plain(Ticks(n))
  {
  }

  // The fence line itself opens the block, and later closes it.
  lemma FenceLine(n: nat, x: string)
    requires n >= 3
    ensures Line(Ticks(n) + "\n" + x) == Ticks(n)
    ensures Opening(Ticks(n)) == Some((0, Fence('`', n), ""))
    ensures Closing(Ticks(n), Fence('`', n))
  {
    TicksPlain(n);
    LineOf(Ticks(n), x);
    TicksRun(n, "");
    assert Ticks(n) + "" == Ticks(n);
    assert RunOf(Ticks(n), ' ') == 0;
    assert Ticks(n)[0..] == Ticks(n);
  }

  // A run in a slice of t is a run in t.
  lemma RunOfSlice(t: string, at: nat, to: nat, i: int, n: int)
    requires at <= to <= |t|
    ensures RunFrom(t[at..to], i, n) ==> RunFrom(t, at + i, n)
  {
    if RunFrom(t[at..to], i, n) {
      assert forall j :: at + i <= j < at + i + n ==> t[j] == t[at..to][j - at];
    }
  }

  lemma ClosingHoldsRun(l: string, n: nat)
    ensures Closing(l, Fence('`', n)) ==> RunFrom(l, RunOf(l, ' '), n)
  {
    var k := RunOf(l, ' ');
    assert forall j :: k <= j < |l| ==> l[j] == l[k..][j - k];
  }

  // A line of the report holds no run as long as the fence, so it closes nothing.
  lemma ReportLineStaysOpen(t: string, at: nat, to: nat, n: nat)
    requires at <= to <= |t| && !HasRun(t, n)
    ensures !Closing(t[at..to], Fence('`', n))
  {
    hide Closing, RunFrom;
    ClosingHoldsRun(t[at..to], n);
    RunOfSlice(t, at, to, RunOf(t[at..to], ' '), n);
  }

  lemma SuffixHasNoRun(t: string, at: nat, n: nat)
    requires at <= |t| && !HasRun(t, n)
    ensures !HasRun(t[at..], n)
  {
    hide RunFrom;
    assert t[at..] == t[at..|t|];
    forall i
      ensures !RunFrom(t[at..], i, n)
    {
      RunOfSlice(t, at, |t|, i, n);
    }
  }

  lemma LineLenIs(s: string, n: nat)
    requires n < |s| && (s[n] == '\n' || s[n] == '\r')
    requires forall i :: 0 <= i < n ==> s[i] != '\n' && s[i] != '\r'
    ensures LineLen(s) == n
  {
  }

  lemma FirstLineOfReport(t: string, f: string)
    ensures LineLen(t + ("\n" + f)) == LineLen(t)
  {
    hide LineLen;
    var s := t + ("\n" + f);
    assert forall i :: 0 <= i < |t| ==> s[i] == t[i];
    assert s[|t|] == '\n';
    LineLenIs(s, LineLen(t));
  }

  // A final CR of t joins the LF that follows.
  lemma FirstEndOfReport(t: string, f: string)
    ensures LineEnd(t + ("\n" + f))
            == if LineLen(t) == |t| || (LineLen(t) + 1 == |t| && t[LineLen(t)] == '\r') then |t| + 1 else LineEnd(t)
  {
    hide LineLen;
    var s := t + ("\n" + f);
    FirstLineOfReport(t, f);
    var n := LineLen(t);
    assert s[|t|] == '\n' && |s| == |t| + 1 + |f|;
    if n < |t| {
      assert s[n] == t[n];
      if n + 1 < |t| {
        assert s[n + 1] == t[n + 1];
      } else {
        assert s[n + 1] == '\n';
      }
    }
  }

  lemma ClosedByFence(n: nat, x: string)
    requires n >= 3 && x != "" && x[0] == '\n'
    ensures Content(Ticks(n) + x, Fence('`', n)) == ""
  {
    FenceLine(n, x[1..]);
    assert Ticks(n) + x == Ticks(n) + "\n" + x[1..];
  }

  // The block's content is the report and its line ending, whatever lines the report has.
  lemma {:induction false} ContentOfReport(t: string, n: nat, x: string)
    requires n >= 3 && !HasRun(t, n) && x != "" && x[0] == '\n'
    ensures Content(t + ("\n" + (Ticks(n) + x)), Fence('`', n)) == t + "\n"
    decreases |t|
  {
    hide Closing, HasRun, LineLen, LineEnd, Ticks;
    var f := Ticks(n) + x;
    var s := t + ("\n" + f);
    FirstLineOfReport(t, f);
    FirstEndOfReport(t, f);
    var e := LineEnd(s);
    SplitReport(t, f, LineLen(t));
    SplitReport(t, f, e);
    ReportLineStaysOpen(t, 0, LineLen(t), n);
    assert Content(s, Fence('`', n)) == s[..e] + Content(s[e..], Fence('`', n));
    if e == |t| + 1 {
      ClosedByFence(n, x);
    } else {
      SuffixHasNoRun(t, e, n);
      ContentOfReport(t[e..], n, x);
    }
  }

  lemma SplitReport(t: string, f: string, e: nat)
    requires e <= |t| + 1
    ensures var s := t + ("\n" + f);
            if e == |t| + 1 then s[..e] == t + "\n" && s[e..] == f
            else s[..e] == t[..e] == t[0..e] && s[e..] == t[e..] + ("\n" + f) && t[..e] + (t[e..] + "\n") == t + "\n"
  {
  }

  // ----- The round trip -----

  lemma MarkerHasNoTick()
    ensures forall i :: 0 <= i < |Marker()| ==> Marker()[i] != '`'
  {
  }

  // The fence is computed before truncation, yet stays longer than every run in any prefix of
  // the report followed by the marker.
  lemma FenceSurvivesTruncation(text: string, k: nat)
    requires k <= |text|
    ensures !HasRun(text[..k] + Marker(), FenceLen(text))
    ensures !HasRun(text, FenceLen(text))
  {
    hide Marker, LongestRun;
    var n := FenceLen(text);
    FenceIsShortest(text, n);
    MarkerHasNoTick();
    forall i
      ensures !RunFrom(text[..k] + Marker(), i, n)
    {
      RunUpToOther(text[..k], Marker(), i, n);
      RunInPrefix(text[..k], Marker(), i, n);
      RunInPrefix(text[..k], text[k..], i, n);
      assert text[..k] + text[k..] == text;
    }
  }

  lemma FitHasNoRun(text: string, budget: int)
    ensures !HasRun(Fit(text, budget), FenceLen(text))
  {
    hide HasRun, FenceLen, Marker;
    var cut := Truncate(text, budget - RuneCount(Marker()));
    TruncateIsPrefix(text, budget - RuneCount(Marker()));
    FenceSurvivesTruncation(text, |cut|);
  }

  lemma IntroOpeningPlain()
    ensures Plain(IntroOpening()) && IntroOpening() != "" && IntroOpening()[0] == 'T'
  {
  }

  lemma IntroClosingPlain()
    ensures Plain(IntroClosing())
  {
  }

  lemma NotePlain()
    ensures Plain(MismatchNote()) && MismatchNote() != "" && MismatchNote()[0] == '_'
  {
  }

  lemma RowFieldsPlain(r: Report)
    ensures forall i :: 0 <= i < |Rows(r)| ==> Plain(Rows(r)[i].0)
  {
  }

  lemma PlainAppend(a: string, b: string)
    requires Plain(a) && Plain(b)
    ensures Plain(a + b)
  {
  }

  // Two line breaks end a harmless line and leave an empty one.
  lemma HarmlessParagraph(l: string)
    requires Plain(l) && l != "" && l[0] != ' ' && l[0] != '`' && l[0] != '~'
    ensures Harmless(l + "\n") && Harmless("\n") && Harmless(l + "\n\n")
  {
    hide Harmless;
    HarmlessLine(l);
    assert "" + "\n" == "\n";
    HarmlessLine("");
    HarmlessAppend(l + "\n", "\n");
    assert (l + "\n") + "\n" == l + "\n\n";
  }

  lemma TableHeadHarmless()
    ensures Harmless(TableHead())
  {
    hide Harmless;
    HarmlessLine("| Field | Value |");
    HarmlessLine("| --- | --- |");
    HarmlessAppend("| Field | Value |" + "\n", "| --- | --- |" + "\n");
    assert "| Field | Value |\n" == "| Field | Value |" + "\n" && "| --- | --- |\n" == "| --- | --- |" + "\n";
  }

  lemma HeadingHarmless()
    ensures Harmless("\n### Report\n\n") && Harmless("### Decrypted content\n\n")
  {
    hide Harmless;
    HarmlessParagraph("### Report");
    HarmlessParagraph("### Decrypted content");
    HarmlessAppend("\n", "### Report" + "\n\n");
    assert "\n" + ("### Report" + "\n\n") == "\n### Report\n\n";
    assert "### Decrypted content" + "\n\n" == "### Decrypted content\n\n";
  }

  lemma DetailsHarmless(rep: Option<Report>)
    ensures Harmless(Details(rep))
  {
    hide Harmless, TableHead, Table, Rows, MismatchNote;
    HeadingHarmless();
    match rep
    case Some(r) =>
      TableHeadHarmless();
      RowFieldsPlain(r);
      TableHarmless(Rows(r));
      HarmlessAppend(TableHead(), Table(Rows(r)));
      HarmlessAppend(TableHead() + Table(Rows(r)), "\n### Report\n\n");
    case None =>
      NotePlain();
      HarmlessParagraph(MismatchNote());
      HarmlessAppend(MismatchNote() + "\n\n", "### Decrypted content\n\n");
  }

  // Nothing before the fence opens a block, for an id without line breaks.
  lemma HeadHarmless(id: string, rep: Option<Report>)
    requires Plain(id)
    ensures Harmless(Head(id, rep))
  {
    hide Harmless, IntroOpening, IntroClosing, Details, SanitizeCode;
    IntroOpeningPlain();
    IntroClosingPlain();
    PlainAppend(IntroOpening(), IntroClosing());
    HarmlessParagraph(IntroOpening() + IntroClosing());
    var line := "**Report ID:** `" + SanitizeCode(id) + "`";
    SanitizePlain(id);
    HarmlessParagraph(line);
    DetailsHarmless(rep);
    HarmlessAppend(line + "\n\n", Details(rep));
    HarmlessAppend(Intro(), (line + "\n\n") + Details(rep));
    assert Intro() + ((line + "\n\n") + Details(rep)) == Head(id, rep);
  }

  // What the issue shows: the report, or its longest prefix that leaves room for the marker,
  // followed by the marker.
  ghost predicate Shown(text: string, budget: int, shown: string) {
    if RuneCount(text) <= budget then shown == text
    else exists k ::
      && 0 <= k <= |text| && Boundary(text, k) && RuneCount(text[..k]) + RuneCount(Marker()) <= budget
      && (forall j :: k < j <= |text| && Boundary(text, j) ==> RuneCount(text[..j]) + RuneCount(Marker()) > budget)
      && shown == text[..k] + Marker()
  }

  lemma FitIsShown(text: string, budget: int)
    requires RuneCount(text) <= budget || RuneCount(Marker()) <= budget
    ensures Shown(text, budget, Fit(text, budget))
  {
    hide RuneCount, Truncate, Boundary, Marker;
    if RuneCount(text) > budget {
      var n := budget - RuneCount(Marker());
      var k := |Truncate(text, n)|;
      TruncateIsPrefix(text, n);
      TruncateCount(text, n);
      forall j | k < j <= |text| && Boundary(text, j)
        ensures RuneCount(text[..j]) > n
      {
        if RuneCount(text[..j]) <= n { TruncateIsLongest(text, n, j); }
      }
    }
  }

  // Reading the body back yields the report, or its longest fitting prefix and the marker, with
  // the line ending the printer adds: the first fenced block of the body is the report's, and
  // nothing in the report ends it early. The condition is that the fixed sections leave room
  // for the report or for the marker.
  lemma BodyReadsBack(id: string, rep: Option<Report>, plaintext: string)
    requires Plain(id)
    requires var text := ReportText(rep, plaintext);
             Overhead(id, rep, text) + Min(RuneCount(text), RuneCount(Marker())) <= MAX_ISSUE_BODY_RUNES
    ensures var text := if rep.Some? then rep.value.report else plaintext;
            var budget := MAX_ISSUE_BODY_RUNES - Overhead(id, rep, text);
            exists shown :: Shown(text, budget, shown)
                && ReadBlock(Body(id, rep, plaintext)) == Some(Block(0, "", shown + "\n"))
  {
    hide RuneCount, Truncate, Head, Marker, Footer, FenceLen, Ticks, Shown, Content, Opening, HasRun, Harmless,
         LineLen, Closing;
    var text := ReportText(rep, plaintext);
    var shown := Fit(text, MAX_ISSUE_BODY_RUNES - Overhead(id, rep, text));
    var n := FenceLen(text);
    FitIsShown(text, MAX_ISSUE_BODY_RUNES - Overhead(id, rep, text));
    FitHasNoRun(text, MAX_ISSUE_BODY_RUNES - Overhead(id, rep, text));
    FenceAtLeastThree(text);
    FooterStartsLine();
    BodyUncut(id, rep, plaintext);
    HeadHarmless(id, rep);
    BlockOfReport(Head(id, rep), n, shown, Footer());
    assert Assemble(Head(id, rep), Ticks(n), shown) == Body(id, rep, plaintext);
  }

  lemma FenceAtLeastThree(text: string)
    ensures FenceLen(text) >= 3
  {
  }

  lemma BlockOfReport(head: string, n: nat, t: string, x: string)
    requires Harmless(head) && n >= 3 && !HasRun(t, n) && x != "" && x[0] == '\n'
    ensures ReadBlock(head + (Ticks(n) + ("\n" + (t + ("\n" + (Ticks(n) + x)))))) == Some(Block(0, "", t + "\n"))
  {
    hide Opening, Closing, HasRun, Harmless, LineLen, Content, Ticks, Line, LineEnd, Plain;
    var content := t + ("\n" + (Ticks(n) + x));
    var s := Ticks(n) + ("\n" + content);
    PassesHarmless(head, s);
    FenceLine(n, content);
    TicksPlain(n);
    LineOf(Ticks(n), content);
    assert s == Ticks(n) + "\n" + content;
    assert ReadBlock(s) == Some(Block(0, "", Content(content, Fence('`', n))));
    ContentOfReport(t, n, x);
  }
}
