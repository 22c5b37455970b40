/** Hermes' config.yaml, edited line by line: the block install appends, and the block
    uninstall reads, vouches for and cuts. */
module Hermes {
  import opened Wrappers
  import opened Text
  import opened Strconv
  import opened Ownership

  // ── lines ──

  /** `indent` is -1 for a blank or comment line. */
  datatype Line = Line(raw: string, text: string, indent: int, hasTabs: bool)

  const BLANKS: set<char> := {' ', '\t'}
  const ENDINGS: set<char> := {'\r', '\n'}

  function ReadLine(raw: string): (l: Line)
    ensures l.raw == raw && -1 <= l.indent <= |l.text| && (l.indent < 0 ==> !l.hasTabs)
  {
    var text := TrimRight(raw, ENDINGS);
    var body := TrimLeft(text, BLANKS);
    if body == "" || body[0] == '#' then Line(raw, text, -1, false)
    else Line(raw, text, |text| - |body|, '\t' in text[..|text| - |body|])
  }

  function ReadLines(raws: seq<string>): (ls: seq<Line>)
    ensures |ls| == |raws| && forall k :: 0 <= k < |raws| ==> ls[k] == ReadLine(raws[k])
  {
    seq(|raws|, k requires 0 <= k < |raws| => ReadLine(raws[k]))
  }

  function Lines(b: string): seq<Line> {
    ReadLines(SplitLines(b))
  }

  function Raws(lines: seq<Line>): (r: seq<string>)
    ensures |r| == |lines| && forall k :: 0 <= k < |lines| ==> r[k] == lines[k].raw
  {
    seq(|lines|, k requires 0 <= k < |lines| => lines[k].raw)
  }

  /** The bytes these lines were read from. */
  function Bytes(lines: seq<Line>): string {
    Concat(Raws(lines))
  }

  lemma ReadOneMore(raws: seq<string>, i: nat)
    requires i < |raws|
    ensures ReadLines(raws[..i + 1]) == ReadLines(raws[..i]) + [ReadLine(raws[i])]
  {
  }

  method HermesLines(b: string) returns (out: seq<Line>)
    ensures out == Lines(b)
  {
    var raws := SplitLines(b);
    out := [];
    var i := 0;
    while i < |raws|
      invariant 0 <= i <= |raws| && out == ReadLines(raws[..i])
    {
      ReadOneMore(raws, i);
      out := out + [ReadLine(raws[i])];
      i := i + 1;
    }
    assert raws[..|raws|] == raws;
  }

  // ── the markers ──

  const CLIENT_NAME := "dropin-miner"
  const MARKER_NAME := CLIENT_NAME + " agents install"
  const BEGIN := "# >>> " + MARKER_NAME + " >>>"
  const END := "# <<< " + MARKER_NAME + " <<<"

  /** The marker text is somewhere in it. */
  predicate Mentions(text: string) {
    Holding(text, BEGIN, END)
  }

  predicate Holding(text: string, open: string, close: string) {
    Contains(text, open) || Contains(text, close)
  }

  /** Exactly one block: the two marker lines, in order, and no other line with marker text. */
  predicate MarkedAt(lines: seq<Line>, begin: int, end: int) {
    && 0 <= begin < end < |lines|
    && lines[begin].text == BEGIN && lines[end].text == END
    && forall i :: 0 <= i < |lines| && i != begin && i != end ==> !Mentions(lines[i].text)
  }

  function FirstText(lines: seq<Line>, text: string): (n: nat)
    ensures n <= |lines| && (n < |lines| ==> lines[n].text == text)
    ensures forall k :: 0 <= k < n ==> lines[k].text != text
  {
    if lines == [] || lines[0].text == text then 0 else 1 + FirstText(lines[1..], text)
  }

  datatype Markers = Markers(present: bool, begin: int, end: int, ok: bool)

  /** Where our block is, if the file holds one that can be vouched for. */
  function Marked(lines: seq<Line>): (r: Option<(nat, nat)>)
    ensures r.Some? ==> MarkedAt(lines, r.value.0, r.value.1)
    ensures forall b, e :: MarkedAt(lines, b, e) ==> r == Some((b, e))
  {
    var b, e := FirstText(lines, BEGIN), FirstText(lines, END);
    MarkersDiffer();
    assert forall b', e' :: MarkedAt(lines, b', e') ==> b' == b && e' == e;
    if MarkedAt(lines, b, e) then Some((b, e)) else None
  }

  lemma MarkersDiffer()
    ensures BEGIN != END && Mentions(BEGIN) && Mentions(END)
  {
    assert BEGIN[2] != END[2];
    assert OccursAt(BEGIN, BEGIN, 0) && OccursAt(END, END, 0);
  }

  /** How many of the first `n` lines are this one. */
  ghost function Count(lines: seq<Line>, n: nat, text: string): nat
    requires n <= |lines|
  {
    if n == 0 then 0 else Count(lines, n - 1, text) + if lines[n - 1].text == text then 1 else 0
  }

  ghost predicate Only(lines: seq<Line>, n: nat, text: string, at: int)
    requires n <= |lines|
  {
    0 <= at < n && lines[at].text == text && forall k :: 0 <= k < n && k != at ==> lines[k].text != text
  }

  lemma {:induction false} CountNone(lines: seq<Line>, n: nat, text: string)
    requires n <= |lines|
    ensures Count(lines, n, text) == 0 <==> forall k :: 0 <= k < n ==> lines[k].text != text
  {
    if n > 0 {
      CountNone(lines, n - 1, text);
    }
  }

  lemma {:induction false} CountOne(lines: seq<Line>, n: nat, text: string, at: int)
    requires n <= |lines| && 0 <= at < n && lines[at].text == text
    ensures Count(lines, n, text) == 1 <==> Only(lines, n, text, at)
  {
    CountNone(lines, n - 1, text);
    if at < n - 1 {
      CountOne(lines, n - 1, text, at);
    }
  }

  ghost predicate Strays(lines: seq<Line>, n: nat, open: string, close: string)
    requires n <= |lines|
  {
    exists k :: 0 <= k < n && IsStray(lines[k].text, open, close)
  }

  predicate IsStray(text: string, open: string, close: string) {
    Holding(text, open, close) && text != open && text != close
  }

  lemma MarkedIffCounted(lines: seq<Line>, begin: int, end: int)
    ensures MarkedAt(lines, begin, end) <==>
            && Only(lines, |lines|, BEGIN, begin) && Only(lines, |lines|, END, end)
            && !Strays(lines, |lines|, BEGIN, END) && begin < end
  {
    MarkersDiffer();
    if MarkedAt(lines, begin, end) {
      forall k | 0 <= k < |lines| && k != begin && k != end
        ensures lines[k].text != BEGIN && lines[k].text != END && !IsStray(lines[k].text, BEGIN, END)
      {
      }
    } else if Only(lines, |lines|, BEGIN, begin) && Only(lines, |lines|, END, end) && begin < end {
      var k :| 0 <= k < |lines| && k != begin && k != end && Mentions(lines[k].text);
      assert IsStray(lines[k].text, BEGIN, END);
    }
  }

  ghost predicate Held(lines: seq<Line>, n: nat, open: string, close: string)
    requires n <= |lines|
  {
    exists k :: 0 <= k < n && Holding(lines[k].text, open, close)
  }

  lemma OneMore(lines: seq<Line>, i: nat, open: string, close: string)
    requires i < |lines|
    ensures Held(lines, i + 1, open, close) <==> Held(lines, i, open, close) || Holding(lines[i].text, open, close)
    ensures Strays(lines, i + 1, open, close) <==> Strays(lines, i, open, close) || IsStray(lines[i].text, open, close)
  {
  }

  lemma NoneYet(lines: seq<Line>, open: string, close: string)
    ensures !Held(lines, 0, open, close) && !Strays(lines, 0, open, close)
  {
  }

  /** One pass over the lines, counting both markers and keeping the first of each. */
  method CountMarkers(lines: seq<Line>, open: string, close: string)
    returns (present: bool, begins: nat, ends: nat, stray: bool, begin: int, end: int)
    requires open != close && Holding(open, open, close) && Holding(close, open, close)
    ensures present <==> Held(lines, |lines|, open, close)
    ensures stray <==> Strays(lines, |lines|, open, close)
    ensures begins == Count(lines, |lines|, open) && ends == Count(lines, |lines|, close)
    ensures begins > 0 ==> 0 <= begin < |lines| && lines[begin].text == open
    ensures ends > 0 ==> 0 <= end < |lines| && lines[end].text == close
  {
    hide Held, Strays;
    NoneYet(lines, open, close);
    begins, ends, stray := 0, 0, false;
    present, begin, end := false, -1, -1;
    var i := 0;
    while i < |lines|
      invariant 0 <= i <= |lines|
      invariant present <==> Held(lines, i, open, close)
      invariant stray <==> Strays(lines, i, open, close)
      invariant begins == Count(lines, i, open) && ends == Count(lines, i, close)
      invariant begins > 0 ==> 0 <= begin < i && lines[begin].text == open
      invariant ends > 0 ==> 0 <= end < i && lines[end].text == close
    {
      OneMore(lines, i, open, close);
      var text := lines[i].text;
      if Holding(text, open, close) {
        present := true;
        if text == open {
          begins := begins + 1;
          if begins == 1 {
            begin := i;
          }
        } else if text == close {
          ends := ends + 1;
          if ends == 1 {
            end := i;
          }
        } else {
          stray := true;
        }
      }
      i := i + 1;
    }
  }

  method FindMarkers(lines: seq<Line>) returns (m: Markers)
    ensures m.present <==> Held(lines, |lines|, BEGIN, END)
    ensures if m.ok then Marked(lines) == Some((m.begin, m.end)) else Marked(lines).None?
  {
    MarkersDiffer();
    var present, begins, ends, stray, begin, end := CountMarkers(lines, BEGIN, END);
    m := Markers(present, begin, end, begins == 1 && ends == 1 && !stray && begin < end);
    JudgedRight(lines, begins, ends, stray, begin, end);
  }

  lemma JudgedRight(lines: seq<Line>, begins: nat, ends: nat, stray: bool, begin: int, end: int)
    requires begins == Count(lines, |lines|, BEGIN) && ends == Count(lines, |lines|, END)
    requires stray <==> Strays(lines, |lines|, BEGIN, END)
    requires begins > 0 ==> 0 <= begin < |lines| && lines[begin].text == BEGIN
    requires ends > 0 ==> 0 <= end < |lines| && lines[end].text == END
    ensures if begins == 1 && ends == 1 && !stray && begin < end then Marked(lines) == Some((begin, end))
            else Marked(lines).None?
  {
    var m := Marked(lines);
    if begins > 0 && ends > 0 {
      CountOne(lines, |lines|, BEGIN, begin);
      CountOne(lines, |lines|, END, end);
      MarkedIffCounted(lines, begin, end);
    }
    CountNone(lines, |lines|, BEGIN);
    CountNone(lines, |lines|, END);
    if m.Some? {
      MarkedIffCounted(lines, m.value.0, m.value.1);
      CountOne(lines, |lines|, BEGIN, m.value.0);
      CountOne(lines, |lines|, END, m.value.1);
    }
  }

  // ── the block the renderer writes ──

  const NOTE_HEAD := "# the configuration above "
  const NOTE_BODY := "ended without a final "
  const NOTE_TAIL := "newline; uninstall restores that"
  const NOTE := NOTE_HEAD + NOTE_BODY + NOTE_TAIL
  const HOOKS := "hooks:"
  const EVENT := "pre_tool_call:"
  const HEADING: seq<string> := [HOOKS, "  " + EVENT]
  const COMMAND_KEY := "    - command:"
  const COMMAND_PREFIX := "    - command: "
  const MATCHER := "terminal"
  const MATCHER_KEY := "matcher: "
  const MATCHER_LINE := "      " + (MATCHER_KEY + ([DOUBLE] + MATCHER + [DOUBLE]))

  /** A YAML single-quoted scalar: a doubled quote is its one escape. */
  function YamlQuote(s: string): string {
    "'" + ReplaceAll(s, "'", "''") + "'"
  }

  function HookLines(cmd: string): seq<string> {
    HEADING + [COMMAND_PREFIX + YamlQuote(cmd), MATCHER_LINE]
  }

  predicate BareArgChar(c: char) {
    'a' <= c <= 'z' || 'A' <= c <= 'Z' || '0' <= c <= '9' || c in "_-./:=+@%"
  }

  predicate BareArg(s: string) {
    s != "" && forall k :: 0 <= k < |s| ==> BareArgChar(s[k])
  }

  /** One argument, quoted for Hermes' own splitter; None where it cannot be. */
  function QuoteArg(s: string, windows: bool): Option<string> {
    if windows then CmdQuote(s)
    else if BareArg(s) then Some(s)
    else Some(PosixQuote(s))
  }

  function HookCommand(e: Entry, windows: bool): Option<string> {
    var bin, cfg := QuoteArg(e.command, windows), QuoteArg(e.cfg, windows);
    if bin.None? || (e.cfg != "" && cfg.None?) then None
    else Some(bin.value + " hook" + (if e.cfg == "" then "" else " -config " + cfg.value) + " hermes pre_tool_call")
  }

  function Body(cmd: string): string {
    Join(HookLines(cmd), "\n") + "\n"
  }

  function HookBlock(body: string, noEOL: bool): string {
    BEGIN + "\n" + (if noEOL then NOTE + "\n" else "") + body + END + "\n"
  }

  function AppendBlock(existing: string, body: string): string {
    if existing == "" then HookBlock(body, false)
    else if existing[|existing| - 1] == '\n' then existing + "\n" + HookBlock(body, false)
    else existing + "\n\n" + HookBlock(body, true)
  }

  // ── reading a block back ──

  function UnquoteSingle(q: string): (r: Option<string>)
    ensures r.Some? ==> YamlQuote(r.value) == q
  {
    if |q| < 2 || q[0] != SINGLE || q[|q| - 1] != SINGLE then None
    else
      var s := ReplaceAll(q[1..|q| - 1], "''", "'");
      if YamlQuote(s) == q then Some(s) else None
  }

  const INDICATORS := "|>&*!{}[]%@`#,?-:"

  function DecodeScalar(v: string): Option<string> {
    if v == "" then None
    else if v[0] == SINGLE then UnquoteSingle(v)
    else if v[0] == DOUBLE then Unquote(v)
    else if v[0] in INDICATORS || Contains(v, " #") || Contains(v, ": ") then None
    else Some(v)
  }

  predicate IsContinuation(l: Line) {
    l.indent > 6
  }

  /** One past the continuation lines that begin at `k`. */
  function CommandEnd(lines: seq<Line>, k: nat, end: nat): (n: nat)
    requires k <= end <= |lines|
    ensures k <= n <= end && (n < end ==> !IsContinuation(lines[n]))
    ensures forall j :: k <= j < n ==> IsContinuation(lines[j])
    decreases end - k
  {
    if k < end && IsContinuation(lines[k]) then CommandEnd(lines, k + 1, end) else k
  }

  /** The lines of a folded scalar, each trimmed. */
  function Pieces(lines: seq<Line>): (r: seq<string>)
    ensures |r| == |lines| && forall k :: 0 <= k < |lines| ==> r[k] == TrimSpace(lines[k].text)
  {
    seq(|lines|, k requires 0 <= k < |lines| => TrimSpace(lines[k].text))
  }

  /** Each piece after a single space. */
  function Spaced(pieces: seq<string>): string {
    if pieces == [] then "" else " " + pieces[0] + Spaced(pieces[1..])
  }

  function CommandRest(text: string): Option<string> {
    if COMMAND_KEY <= text && (|text| > |COMMAND_KEY| ==> text[|COMMAND_KEY|] == ' ') then Some(text[|COMMAND_KEY|..])
    else None
  }

  /** The command scalar of the list entry on line `i`, its folding undone. */
  function ItemCommand(lines: seq<Line>, i: nat, end: nat): Option<string>
    requires i < end <= |lines|
  {
    var rest := CommandRest(lines[i].text);
    if rest.None? then None
    else DecodeScalar(TrimSpace(TrimSpace(rest.value) + Spaced(Pieces(lines[i + 1..CommandEnd(lines, i + 1, end)]))))
  }

  /** The first line at or after `i` that is neither blank nor a comment, or `|lines|`. */
  function NextContent(lines: seq<Line>, i: nat): (n: nat)
    requires i <= |lines|
    ensures i <= n <= |lines| && (n < |lines| ==> lines[n].indent >= 0)
    ensures forall k :: i <= k < n ==> lines[k].indent < 0
    decreases |lines| - i
  {
    if i == |lines| || lines[i].indent >= 0 then i else NextContent(lines, i + 1)
  }

  predicate IsOurMatcher(l: Line) {
    && l.indent == 6 && |l.text| >= 6 && MATCHER_KEY <= l.text[6..]
    && var v := TrimLeft(l.text[6..][|MATCHER_KEY|..], {' '});
       v == TrimRight(v, BLANKS) && DecodeScalar(v) == Some(MATCHER)
  }

  function FirstTab(lines: seq<Line>): (n: nat)
    ensures n <= |lines| && (n < |lines| ==> lines[n].hasTabs)
    ensures forall k :: 0 <= k < n ==> !lines[k].hasTabs
  {
    if lines == [] || lines[0].hasTabs then 0 else 1 + FirstTab(lines[1..])
  }

  /** What reading a block comes to: its command, or the line reading stopped at. */
  datatype Reading = Holds(cmd: string) | Stopped(at: nat)

  function ReadEntry(block: seq<Line>, at: nat): Reading
    requires at < |block|
  {
    var cmd := ItemCommand(block, at, |block|);
    if cmd.None? then Stopped(at)
    else
      var m := NextContent(block, CommandEnd(block, at + 1, |block|));
      if m == |block| || !IsOurMatcher(block[m]) then Stopped(m)
      else
        var after := NextContent(block, m + 1);
        if after < |block| then Stopped(after) else Holds(cmd.value)
  }

  datatype Heading = Matched(end: nat) | Broken(at: nat)

  /** These texts, in order, as the first content lines from `i` on. */
  function ReadHeading(block: seq<Line>, i: nat, want: seq<string>): (h: Heading)
    requires i <= |block|
    ensures h.Matched? ==> i <= h.end <= |block|
    decreases |want|
  {
    if want == [] then Matched(i)
    else
      var n := NextContent(block, i);
      if n == |block| || block[n].text != want[0] then Broken(n) else ReadHeading(block, n + 1, want[1..])
  }

  function ReadBlock(block: seq<Line>): Reading {
    var tab := FirstTab(block);
    if tab < |block| then Stopped(tab)
    else
      match ReadHeading(block, 0, HEADING)
      case Broken(at) => Stopped(at)
      case Matched(end) =>
        var at := NextContent(block, end);
        if at == |block| then Stopped(at) else ReadEntry(block, at)
  }

  /** Which lines have content, first to last. */
  ghost predicate ContentOf(block: seq<Line>, n: nat, content: seq<nat>)
    requires n <= |block|
  {
    && (forall k :: 0 <= k < |content| ==> content[k] < n && block[content[k]].indent >= 0)
    && Ascends(content)
    && (forall i :: 0 <= i < n && block[i].indent >= 0 ==> i in content)
  }

  lemma {:induction false} NextIs(lines: seq<Line>, i: nat, n: nat)
    requires i <= n <= |lines| && (n < |lines| ==> lines[n].indent >= 0) && forall k :: i <= k < n ==>
             lines[k].indent < 0
    ensures NextContent(lines, i) == n
    decreases n - i
  {
    if i < n {
      NextIs(lines, i + 1, n);
    }
  }

  ghost predicate Ascends(content: seq<nat>) {
    forall j, k :: 0 <= j < k < |content| ==> content[j] < content[k]
  }

  lemma NoneBetween(content: seq<nat>, k: nat, end: nat)
    requires Ascends(content) && k <= |content| && forall j :: 0 <= j < |content| ==> content[j] < end
    ensures var from, n := if k == 0 then 0 else content[k - 1] + 1, if k < |content| then content[k] else end;
            from <= n && forall i :: from <= i < n ==> i !in content
  {
    var from, n := if k == 0 then 0 else content[k - 1] + 1, if k < |content| then content[k] else end;
    forall j | 0 <= j < |content|
      ensures content[j] < from || n <= content[j]
    {
      if j < k {
        assert j == k - 1 || content[j] < content[k - 1];
      } else {
        assert j == k || content[k] < content[j];
      }
    }
  }

  lemma ContentNext(block: seq<Line>, content: seq<nat>, k: nat)
    requires ContentOf(block, |block|, content) && k <= |content|
    ensures var from := if k == 0 then 0 else content[k - 1] + 1;
            NextContent(block, from) == if k < |content| then content[k] else |block|
  {
    hide NextContent, Ascends;
    NoneBetween(content, k, |block|);
    NextIs(block, if k == 0 then 0 else content[k - 1] + 1, if k < |content| then content[k] else |block|);
  }

  method NextContentLine(lines: seq<Line>, i: nat) returns (k: nat)
    requires i <= |lines|
    ensures k == NextContent(lines, i)
  {
    k := i;
    while k < |lines| && lines[k].indent < 0
      invariant i <= k <= |lines| && NextContent(lines, k) == NextContent(lines, i)
    {
      k := k + 1;
    }
  }

  lemma {:induction false} SpacedAppend(pieces: seq<string>, p: string)
    ensures Spaced(pieces + [p]) == Spaced(pieces) + (" " + p)
  {
    if pieces == [] {
      assert pieces + [p] == [p];
      assert Spaced([p]) == " " + p + Spaced([p][1..]);
    } else {
      assert (pieces + [p])[1..] == pieces[1..] + [p];
      SpacedAppend(pieces[1..], p);
    }
  }

  lemma PiecesAppend(lines: seq<Line>, i: nat, k: nat)
    requires i <= k < |lines|
    ensures Pieces(lines[i..k + 1]) == Pieces(lines[i..k]) + [TrimSpace(lines[k].text)]
  {
  }

  lemma UnfoldStep(first: string, lines: seq<Line>, i: nat, k: nat)
    requires i <= k < |lines|
    ensures first + Spaced(Pieces(lines[i..k + 1])) ==
            first + Spaced(Pieces(lines[i..k])) + (" " + TrimSpace(lines[k].text))
  {
    PiecesAppend(lines, i, k);
    SpacedAppend(Pieces(lines[i..k]), TrimSpace(lines[k].text));
  }

  method Unfold(first: string, lines: seq<Line>, i: nat, end: nat) returns (value: string)
    requires i <= end <= |lines|
    ensures value == first + Spaced(Pieces(lines[i..CommandEnd(lines, i, end)]))
  {
    value := first;
    var k := i;
    while k < end && IsContinuation(lines[k])
      invariant i <= k <= end && CommandEnd(lines, k, end) == CommandEnd(lines, i, end)
      invariant value == first + Spaced(Pieces(lines[i..k]))
    {
      UnfoldStep(first, lines, i, k);
      value := value + (" " + TrimSpace(lines[k].text));
      k := k + 1;
    }
  }

  method ReadItemCommand(lines: seq<Line>, i: nat, end: nat) returns (cmd: Option<string>)
    requires i < end <= |lines|
    ensures cmd == ItemCommand(lines, i, end)
  {
    var rest := CommandRest(lines[i].text);
    if rest.None? {
      return None;
    }
    var value := Unfold(TrimSpace(rest.value), lines, i + 1, end);
    cmd := DecodeScalar(TrimSpace(value));
  }

  lemma HeadingStep(block: seq<Line>, from: nat, want: seq<string>, n: nat)
    requires n < |want| && from <= |block|
    ensures var c := NextContent(block, from);
            ReadHeading(block, from, want[n..]) ==
            if c == |block| || block[c].text != want[n] then Broken(c) else ReadHeading(block, c + 1, want[n + 1..])
  {
    assert want[n..][1..] == want[n + 1..];
  }

  method MatchHeading(block: seq<Line>, content: seq<nat>, want: seq<string>) returns (h: Heading)
    requires ContentOf(block, |block|, content)
    ensures h == ReadHeading(block, 0, want)
    ensures h.Matched? ==> |content| >= |want| && h.end == if want == [] then 0 else content[|want| - 1] + 1
  {
    hide NextContent;
    var n := 0;
    assert want[0..] == want;
    while n < |want|
      invariant 0 <= n <= |want| && n <= |content|
      invariant ReadHeading(block, if n == 0 then 0 else content[n - 1] + 1, want[n..]) == ReadHeading(block, 0, want)
    {
      ContentNext(block, content, n);
      HeadingStep(block, if n == 0 then 0 else content[n - 1] + 1, want, n);
      if |content| <= n {
        return Broken(|block|);
      }
      if block[content[n]].text != want[n] {
        return Broken(content[n]);
      }
      n := n + 1;
    }
    h := Matched(if n == 0 then 0 else content[n - 1] + 1);
  }

  method CollectContent(block: seq<Line>) returns (content: seq<nat>, tab: nat)
    ensures tab == FirstTab(block) && (tab == |block| ==> ContentOf(block, |block|, content))
  {
    content := [];
    tab := 0;
    while tab < |block|
      invariant 0 <= tab <= |block| && ContentOf(block, tab, content)
      invariant forall k :: 0 <= k < tab ==> !block[k].hasTabs
    {
      if block[tab].hasTabs {
        return;
      }
      if block[tab].indent >= 0 {
        content := content + [tab];
      }
      tab := tab + 1;
    }
  }

  /** Reads the block: one pass for its content lines, then its heading, then its entry. */
  method ReadMarkedBlock(block: seq<Line>) returns (r: Reading)
    ensures r == ReadBlock(block)
  {
    hide ReadEntry, ReadHeading, NextContent;
    var content, tab := CollectContent(block);
    if tab < |block| {
      return Stopped(tab);
    }
    var h := MatchHeading(block, content, HEADING);
    if h.Broken? {
      return Stopped(h.at);
    }
    ContentNext(block, content, |HEADING|);
    if |content| < 3 {
      return Stopped(|block|);
    }
    r := ReadMarkedEntry(block, content[2]);
  }

  method ReadMarkedEntry(block: seq<Line>, at: nat) returns (r: Reading)
    requires at < |block|
    ensures r == ReadEntry(block, at)
  {
    var cmd := ReadItemCommand(block, at, |block|);
    if cmd.None? {
      return Stopped(at);
    }
    var k := at + 1;
    while k < |block| && IsContinuation(block[k])
      invariant at + 1 <= k <= |block| && CommandEnd(block, k, |block|) == CommandEnd(block, at + 1, |block|)
    {
      k := k + 1;
    }
    var matcher := NextContentLine(block, k);
    if matcher == |block| || !IsOurMatcher(block[matcher]) {
      return Stopped(matcher);
    }
    var after := NextContentLine(block, matcher + 1);
    r := if after < |block| then Stopped(after) else Holds(cmd.value);
  }

  /** H5's rule, and then exactly the words the renderer puts after the binary. */
  predicate CommandIsOurHook(env: Env, ref: Ref, cmd: string) {
    && CommandIsOurs(env, ref, cmd)
    && var words := Words(AfterBinary(env, ref.bins, cmd).value);
       || (|words| == 3 && words[0] == "hook" && words[1] == "hermes" && words[2] == "pre_tool_call")
       || (|words| == 5 && words[0] == "hook" && words[1] == "-config" && words[3] == "hermes" &&
           words[4] == "pre_tool_call")
  }

  /** Why a block is left where it is. */
  datatype Reason = NotOurLine(line: nat) | NotWhole | NotOurs | Continued(line: nat)

  /** A blank or comment line the client did not write, or `|block|`. */
  function Foreign(block: seq<Line>, i: nat): (n: nat)
    requires i <= |block|
    ensures i <= n <= |block|
    ensures n < |block| ==> block[n].indent < 0 && (n != 0 || block[n].text != NOTE)
    ensures forall k :: i <= k < n && block[k].indent < 0 ==> k == 0 && block[k].text == NOTE
    decreases |block| - i
  {
    if i == |block| || (block[i].indent < 0 && (i != 0 || block[i].text != NOTE)) then i
    else Foreign(block, i + 1)
  }

  function LeftBecause(env: Env, ref: Ref, lines: seq<Line>, begin: nat, end: nat): Option<Reason>
    requires begin < end < |lines|
  {
    var block := lines[begin + 1..end];
    var foreign := Foreign(block, 0);
    if foreign < |block| then Some(NotOurLine(begin + 1 + foreign))
    else
      match ReadBlock(block)
      case Stopped(at) => Some(if at >= |block| then NotWhole else NotOurLine(begin + 1 + at))
      case Holds(cmd) =>
        if !CommandIsOurHook(env, ref, cmd) then Some(NotOurs)
        else
          var next := NextContent(lines, end + 1);
          if next < |lines| && lines[next].indent > 0 then Some(Continued(next)) else None
  }

  // ── cutting it out ──

  /** The block with the blank line install put in front of it. */
  function CutStart(lines: seq<Line>, begin: nat): (n: nat)
    requires begin < |lines|
    ensures n <= begin
  {
    if begin > 0 && lines[begin - 1].text == "" then begin - 1 else begin
  }

  /** Our note says the newline that now ends the file is ours. */
  predicate EndsByNote(lines: seq<Line>, begin: nat, end: nat)
    requires begin < end < |lines|
  {
    end == |lines| - 1 && begin + 1 < end && lines[begin + 1].text == NOTE
  }

  function Cut(lines: seq<Line>, begin: nat, end: nat): string
    requires begin < end < |lines|
  {
    var s := Bytes(lines[..CutStart(lines, begin)] + lines[end + 1..]);
    if EndsByNote(lines, begin, end) then TrimSuffix(TrimSuffix(s, "\n"), "\r") else s
  }

  lemma BytesAppend(a: seq<Line>, b: seq<Line>)
    ensures Bytes(a + b) == Bytes(a) + Bytes(b)
  {
    assert Raws(a + b) == Raws(a) + Raws(b);
    ConcatAppend(Raws(a), Raws(b));
  }

  lemma OneLine(l: Line)
    ensures Bytes([l]) == l.raw
  {
    assert Raws([l]) == [l.raw];
    assert Concat([l.raw]) == l.raw + Concat([l.raw][1..]);
  }

  /** Of the first `i` lines, those outside the run. */
  function Kept(lines: seq<Line>, start: nat, end: nat, i: nat): seq<Line>
    requires start <= end <= |lines| && i <= |lines|
  {
    if i <= start then lines[..i] else if i <= end then lines[..start] else lines[..start] + lines[end..i]
  }

  lemma KeptStep(lines: seq<Line>, start: nat, end: nat, i: nat)
    requires start <= end <= |lines| && i < |lines|
    ensures Bytes(Kept(lines, start, end, i + 1)) ==
            Bytes(Kept(lines, start, end, i)) + if i < start || i >= end then lines[i].raw else ""
  {
    var k := Kept(lines, start, end, i);
    if i < start || i >= end {
      assert Kept(lines, start, end, i + 1) == k + [lines[i]];
      BytesAppend(k, [lines[i]]);
      OneLine(lines[i]);
    } else {
      assert Kept(lines, start, end, i + 1) == k;
      assert Bytes(k) + "" == Bytes(k);
    }
  }

  /** Every line outside the run, copied as it was read. */
  method CopyOutside(lines: seq<Line>, start: nat, end: nat) returns (s: string)
    requires start <= end <= |lines|
    ensures s == Bytes(lines[..start] + lines[end..])
  {
    s := "";
    var i := 0;
    while i < |lines|
      invariant 0 <= i <= |lines| && s == Bytes(Kept(lines, start, end, i))
    {
      KeptStep(lines, start, end, i);
      if i < start || i >= end {
        s := s + lines[i].raw;
      }
      i := i + 1;
    }
    assert Kept(lines, start, end, |lines|) == lines[..start] + lines[end..];
  }

  method CutBlock(lines: seq<Line>, begin: nat, end: nat) returns (s: string)
    requires begin < end < |lines|
    ensures s == Cut(lines, begin, end)
  {
    var start := begin;
    if start > 0 && lines[start - 1].text == "" {
      start := start - 1;
    }
    s := CopyOutside(lines, start, end + 1);
    if end == |lines| - 1 && begin + 1 < end && lines[begin + 1].text == NOTE {
      s := TrimSuffix(TrimSuffix(s, "\n"), "\r");
    }
  }

  /** One block of ours or none; a block is cut, or left for a reason. */
  datatype Removal = Absent | Left(why: Reason) | Removed(next: string)

  function RemoveOurBlock(env: Env, ref: Ref, b: string): Removal {
    var lines := Lines(b);
    match Marked(lines)
    case None => Absent
    case Some(m) =>
      match LeftBecause(env, ref, lines, m.0, m.1)
      case Some(why) => Left(why)
      case None => Removed(Cut(lines, m.0, m.1))
  }

  predicate Between(lines: seq<Line>, begin: nat, end: nat, cmd: string)
    requires begin < end < |lines|
  {
    ReadBlock(lines[begin + 1..end]) == Holds(cmd)
  }

  /** Between the markers: today's command and nothing but it. */
  predicate IsCurrent(b: string, cmd: string) {
    match Marked(Lines(b))
    case None => false
    case Some(m) => Between(Lines(b), m.0, m.1, cmd)
  }

  /** The file after a removal: as it was, unless something was cut. */
  function After(b: string, r: Removal): string {
    if r.Removed? then r.next else b
  }
}
