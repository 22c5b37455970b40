/** This installation's entry under a hooks: block the client did not write: finding it, and the
    run of lines that may go. */
module HermesEntry {
  import opened Wrappers
  import opened Text
  import opened Ownership
  import opened Hermes

  // ── the top-level structure ──

  function IndexChar(s: string, c: char): (n: nat)
    ensures n <= |s| && (n < |s| ==> s[n] == c) && forall k :: 0 <= k < n ==> s[k] != c
  {
    if s == "" || s[0] == c then 0 else 1 + IndexChar(s[1..], c)
  }

  const NOT_IN_KEYS := "#{}[]&*!|>'\"%@`,"

  predicate AnyOf(s: string, cs: string) {
    exists k :: 0 <= k < |s| && s[k] in cs
  }

  /** What is left of a quoted or plain key: the key, and the text after it. */
  function SplitKey(line: string): Option<(string, string)>
    requires line != ""
  {
    if line[0] == SINGLE || line[0] == DOUBLE then
      var end := IndexChar(line[1..], line[0]);
      if (line[0] == DOUBLE && BACKSLASH in line) || end == |line| - 1 then None
      else Some((line[1..1 + end], line[1 + end + 1..]))
    else
      var colon := IndexChar(line, ':');
      if colon == |line| || AnyOf(line[..colon], NOT_IN_KEYS) then None else Some((line[..colon], line[colon..]))
  }

  /** The key of a block-mapping line, or None for anything that is not surely one. */
  function TopLevelKey(line: string): Option<string>
    requires line != ""
  {
    var parts := SplitKey(line);
    if parts.None? then None
    else
      var rest := TrimLeft(parts.value.1, BLANKS);
      if rest == "" || rest[0] != ':' || (|rest| > 1 && rest[1] !in BLANKS) then None
      else Some(TrimRight(parts.value.0, BLANKS))
  }

  predicate KeyIs(line: string, key: string)
    requires line != ""
  {
    var k := TopLevelKey(line);
    k.Some? && EqualFold(k.value, key)
  }

  datatype Refusal = Partial | NotRooted | ManyDocuments | NotPlainMapping

  /** What the top level is: refused, or a plain mapping with this many hooks keys. */
  datatype Scan = Refused(why: Refusal) | Mapping(hooks: nat)

  datatype Seen = Seen(document: bool, content: bool, rooted: bool, hooks: nat)

  const SCAN_CUT: set<char> := {' ', '\t', '\r'}

  function ScanLine(raw: string, seen: Seen): (Option<Refusal>, Seen) {
    var line := TrimRight(TrimSuffix(raw, "\n"), SCAN_CUT);
    var bare := TrimLeft(line, BLANKS);
    if line == "" || (bare != "" && bare[0] == '#') then (None, seen)
    else if line[0] in BLANKS then (if seen.rooted then None else Some(NotRooted), seen.(content := true))
    else if line[0] == '%' then (None, seen)
    else if line == "---" || "--- " <= line then
      (if seen.document || seen.content then Some(ManyDocuments) else None, seen.(document := true))
    else if line == "..." then (Some(ManyDocuments), seen)
    else
      (if TopLevelKey(line).None? then Some(NotPlainMapping) else None,
       Seen(seen.document, true, true, seen.hooks + if KeyIs(line, "hooks") then 1 else 0))
  }

  function ScanFrom(raws: seq<string>, seen: Seen): Scan {
    if raws == [] then Mapping(seen.hooks)
    else
      var r := ScanLine(raws[0], seen);
      if r.0.Some? then Refused(r.0.value) else ScanFrom(raws[1..], r.1)
  }

  function ConfigScan(b: string): Scan {
    if Mentions(b) then Refused(Partial) else ScanFrom(SplitLines(b), Seen(false, false, false, 0))
  }

  method ScanConfig(b: string) returns (r: Scan)
    ensures r == ConfigScan(b)
  {
    if Mentions(b) {
      return Refused(Partial);
    }
    var raws, seen := SplitLines(b), Seen(false, false, false, 0);
    var i := 0;
    assert raws[0..] == raws;
    while i < |raws|
      invariant 0 <= i <= |raws| && ScanFrom(raws[i..], seen) == ConfigScan(b)
    {
      var step := ScanLine(raws[i], seen);
      assert raws[i..][1..] == raws[i + 1..];
      if step.0.Some? {
        return Refused(step.0.value);
      }
      seen := step.1;
      i := i + 1;
    }
    r := Mapping(seen.hooks);
  }

  // ── scans over lines ──

  /** The first line from `i` up to `end` that satisfies `p`, or `end`. */
  function First(lines: seq<Line>, i: nat, end: nat, p: Line -> bool): (n: nat)
    requires i <= end <= |lines|
    ensures i <= n <= end && (n < end ==> p(lines[n]))
    ensures forall k :: i <= k < n ==> !p(lines[k])
    decreases end - i
  {
    if i == end || p(lines[i]) then i else First(lines, i + 1, end, p)
  }

  method Find(lines: seq<Line>, i: nat, end: nat, p: Line -> bool) returns (n: nat)
    requires i <= end <= |lines|
    ensures n == First(lines, i, end, p)
  {
    n := i;
    while n < end && !p(lines[n])
      invariant i <= n <= end && First(lines, n, end, p) == First(lines, i, end, p)
    {
      n := n + 1;
    }
  }

  /** The last line between `top` and `i` that satisfies `p`. */
  function Above(lines: seq<Line>, i: nat, top: nat, p: Line -> bool): (r: Option<nat>)
    requires top < i <= |lines|
    ensures r.Some? ==> top < r.value < i && p(lines[r.value]) && forall k :: r.value < k < i ==> !p(lines[k])
    ensures r.None? ==> forall k :: top < k < i ==> !p(lines[k])
  {
    if i == top + 1 then None else if p(lines[i - 1]) then Some(i - 1) else Above(lines, i - 1, top, p)
  }

  method FindAbove(lines: seq<Line>, i: nat, top: nat, p: Line -> bool) returns (r: Option<nat>)
    requires top < i <= |lines|
    ensures r == Above(lines, i, top, p)
  {
    var k := i;
    while k > top + 1
      invariant top < k <= i && Above(lines, k, top, p) == Above(lines, i, top, p)
    {
      if p(lines[k - 1]) {
        return Some(k - 1);
      }
      k := k - 1;
    }
    r := None;
  }

  function IsHooksLine(l: Line): bool {
    l.indent == 0 && l.text == HEADING[0]
  }

  function IsTopLine(l: Line): bool {
    l.indent == 0
  }

  function IsOutsideEntry(l: Line): bool {
    0 <= l.indent < 4
  }

  function IsOutsideList(l: Line): bool {
    0 <= l.indent <= 2
  }

  /** A line at list depth or above that is not a list item. */
  function IsNoItem(l: Line): bool {
    0 <= l.indent <= 4 && !IsItem(l)
  }

  predicate IsItem(l: Line) {
    l.indent == 4 && |l.text| >= 4 && (l.text[4..] == "-" || "- " <= l.text[4..])
  }

  function IsOddDepth(l: Line): bool {
    l.indent == 1 || l.indent == 3
  }

  function IsEvent(l: Line): bool {
    l.indent == 2 && |l.text| > 2 && KeyIs(l.text[2..], "pre_tool_call")
  }

  /** Where our entry would be: its pre_tool_call: line above it, under the hooks: line. */
  predicate EntryIsOurs(env: Env, ref: Ref, lines: seq<Line>, i: nat, top: nat, blockEnd: nat)
    requires top < i < blockEnd <= |lines|
  {
    && lines[i].indent == 4
    && (var cmd := ItemCommand(lines, i, blockEnd); cmd.Some? && CommandIsOurHook(env, ref, cmd.value))
    && var parent := Above(lines, i, top, IsOutsideEntry);
       && parent.Some? && lines[parent.value].text == HEADING[1]
       && forall k :: top < k < parent.value ==> lines[k].indent < 0 || lines[k].indent >= 2
  }

  function OursAt(env: Env, ref: Ref, lines: seq<Line>, top: nat, blockEnd: nat): nat -> bool {
    (i: nat) => top < i < blockEnd <= |lines| && EntryIsOurs(env, ref, lines, i, top, blockEnd)
  }

  /** The first place from `i` up to `end` that satisfies `p`, or `end`. */
  function FirstPlace(i: nat, end: nat, p: nat -> bool): (n: nat)
    requires i <= end
    ensures i <= n <= end && (n < end ==> p(n))
    decreases end - i
  {
    if i == end || p(i) then i else FirstPlace(i + 1, end, p)
  }

  /** The first entry of ours from `i` on, or `blockEnd`. */
  function FirstOurs(env: Env, ref: Ref, lines: seq<Line>, i: nat, top: nat, blockEnd: nat): (n: nat)
    requires top < i <= blockEnd <= |lines|
    ensures i <= n <= blockEnd && (n < blockEnd ==> EntryIsOurs(env, ref, lines, n, top, blockEnd))
  {
    FirstPlace(i, blockEnd, OursAt(env, ref, lines, top, blockEnd))
  }

  /** How many lines from `i` up to `end` open the event our entry belongs to. */
  function Events(lines: seq<Line>, i: nat, end: nat): nat
    requires i <= end <= |lines|
    decreases end - i
  {
    if i == end then 0 else (if IsEvent(lines[i]) then 1 else 0) + Events(lines, i + 1, end)
  }

  /** The rest of the entry, line by line: keys of its own, and deeper lines only under one. */
  predicate ReadableFrom(keyValue: string -> bool, lines: seq<Line>, k: nat, end: nat, underKey: bool)
    requires k <= end <= |lines|
    decreases end - k
  {
    if k == end then true
    else if lines[k].indent < 0 then ReadableFrom(keyValue, lines, k + 1, end, underKey)
    else if lines[k].indent <= 4 then true
    else if lines[k].indent == 6 then
      |lines[k].text| >= 6 && keyValue(lines[k].text[6..]) && ReadableFrom(keyValue, lines, k + 1, end, true)
    else lines[k].indent > 6 && underKey && ReadableFrom(keyValue, lines, k + 1, end, underKey)
  }

  /** A content line at exactly this depth, in `[from, to)` and outside `[skip, resume)`. */
  predicate HasOther(lines: seq<Line>, from: nat, to: nat, skip: nat, resume: nat, depth: int)
    requires to <= |lines|
  {
    exists k :: from <= k < to && !(skip <= k < resume) && lines[k].indent == depth
  }

  // ── the run that may go ──

  /** hermesDecodeCommandLine: the renderer's own one-line form. */
  function DecodeCommandLine(text: string): Option<string> {
    if COMMAND_PREFIX <= text then UnquoteSingle(text[|COMMAND_PREFIX|..]) else None
  }

  predicate TextsAre(lines: seq<Line>, want: seq<string>) {
    |lines| == |want| && forall k :: 0 <= k < |want| ==> lines[k].text == want[k]
  }

  predicate RenderedExactly(lines: seq<Line>, start: nat, end: nat, at: nat)
    requires start <= at < end <= |lines|
  {
    var cmd, n := DecodeCommandLine(lines[at].text), end - start;
    cmd.Some? && 2 <= n <= 4 && TextsAre(lines[start..end], HookLines(cmd.value)[4 - n..])
  }

  /** One past the matcher of the entry at `at`, if its matcher is the next line under the command. */
  function EntrySpan(lines: seq<Line>, at: nat, listEnd: nat): Option<nat>
    requires at < listEnd <= |lines|
  {
    var k := CommandEnd(lines, at + 1, listEnd);
    if k < listEnd && IsOurMatcher(lines[k]) then Some(k + 1) else None
  }

  predicate EntryLinesAreOurs(env: Env, ref: Ref, lines: seq<Line>, start: nat, end: nat, at: nat)
    requires start <= at < end <= |lines|
  {
    RenderedExactly(lines, start, end, at) ||
    (&& at - start <= 2 && TextsAre(lines[start..at], HEADING[2 - (at - start)..])
     && COMMAND_PREFIX <= lines[at].text
     && (var v := TrimSpace(lines[at].text[|COMMAND_PREFIX|..]); v != "" && v[0] != DOUBLE)
     && EntrySpan(lines, at, |lines|) == Some(end)
     && (var cmd := ItemCommand(lines, at, |lines|); cmd.Some? && CommandIsOurHook(env, ref, cmd.value))
     && forall k :: at < k < end - 1 ==> lines[k].indent > 6)
  }

  /** Walking up from a line, each shallower line is the renderer's for its depth. */
  predicate HeadedByOurs(lines: seq<Line>, i: nat, level: int)
    requires i <= |lines|
    decreases i
  {
    if level <= 0 then true
    else if i == 0 then false
    else if lines[i - 1].indent < 0 || lines[i - 1].indent >= level then HeadedByOurs(lines, i - 1, level)
    else if lines[i - 1].indent == 2 then lines[i - 1].text == HEADING[1] && HeadedByOurs(lines, i - 1, 2)
    else lines[i - 1].indent == 0 && lines[i - 1].text == HEADING[0]
  }

  /** Nothing after the run is deeper than the run's own first line. */
  predicate EndsWhatItBegan(lines: seq<Line>, start: nat, end: nat)
    requires start < end <= |lines|
  {
    var next := NextContent(lines, end);
    next < |lines| ==> lines[next].indent <= lines[start].indent
  }

  predicate RunIsOurs(env: Env, ref: Ref, lines: seq<Line>, start: nat, end: nat, at: nat)
    requires start <= at < end <= |lines|
  {
    && EntryLinesAreOurs(env, ref, lines, start, end, at)
    && HeadedByOurs(lines, start, lines[start].indent)
    && EndsWhatItBegan(lines, start, end)
  }

  datatype Kept = Repeated | NoMatcher | FurtherKey | ApartFromEvent | ApartFromHooks | NotAsWritten

  /** Not found; found and left for a reason; found with the run of lines to take out. */
  datatype Own = Missing | Found(at: nat, why: Kept) | Removable(at: nat, start: nat, end: nat)

  /** How far back the run reaches: over headings that would be left with nothing under them. */
  function RunStart(lines: seq<Line>, top: nat, parent: nat, at: nat, end: nat, listEnd: nat, blockEnd: nat): Own
    requires top < parent < at < end <= listEnd <= blockEnd <= |lines|
  {
    if HasOther(lines, parent + 1, listEnd, at, end, 4) then Removable(at, at, end)
    else if parent != at - 1 then Found(at, ApartFromEvent)
    else if HasOther(lines, top + 1, blockEnd, parent, end, 2) then Removable(at, parent, end)
    else if top != parent - 1 then Found(at, ApartFromHooks)
    else Removable(at, top, end)
  }

  /** Ours, and whether it can be taken out by line. */
  function Decide(env: Env, ref: Ref, lines: seq<Line>, top: nat, parent: nat, at: nat, listEnd: nat, blockEnd: nat,
                  more: bool): Own
    requires top < parent < at < listEnd <= blockEnd <= |lines|
  {
    var span := EntrySpan(lines, at, listEnd);
    if more then Found(at, Repeated)
    else if span.None? then Found(at, NoMatcher)
    else
      var next := NextContent(lines, span.value);
      if next < |lines| && lines[next].indent > 4 then Found(at, FurtherKey)
      else
        var run := RunStart(lines, top, parent, at, span.value, listEnd, blockEnd);
        if run.Removable? && !RunIsOurs(env, ref, lines, run.start, run.end, at) then Found(at, NotAsWritten) else run
  }

  /** Every line of the block is one whose place a parser would agree on. */
  predicate BlockReadable(keyValue: string -> bool, lines: seq<Line>, top: nat, parent: nat, at: nat, listEnd: nat,
      blockEnd: nat)
    requires top < parent < at < listEnd <= blockEnd <= |lines|
  {
    && Events(lines, top + 1, blockEnd) == 1
    && First(lines, parent + 1, listEnd, IsNoItem) == listEnd
    && First(lines, top + 1, blockEnd, IsOddDepth) == blockEnd
    && ReadableFrom(keyValue, lines, CommandEnd(lines, at + 1, listEnd), listEnd, false)
  }

  lemma ListReaches(lines: seq<Line>, parent: nat, at: nat, blockEnd: nat)
    requires parent < at < blockEnd <= |lines| && lines[at].indent == 4
    requires forall k :: parent < k < at ==> !IsOutsideEntry(lines[k])
    ensures First(lines, parent + 1, blockEnd, IsOutsideList) > at
  {
    forall k | parent < k <= at
      ensures !IsOutsideList(lines[k])
    {
      assert k < at ==> !IsOutsideEntry(lines[k]);
    }
  }

  /** The item at `at` stands under the heading at `parent`. */
  predicate StandsUnder(lines: seq<Line>, parent: nat, at: nat) {
    parent < at < |lines| && lines[at].indent == 4 && forall k :: parent < k < at ==> !IsOutsideEntry(lines[k])
  }

  /** The entry of ours at `at`, and whether there are more. */
  function FindIn(env: Env, keyValue: string -> bool, ref: Ref, lines: seq<Line>, top: nat, parent: nat, at: nat,
                  blockEnd: nat, more: bool): Own
    requires top < parent && at < blockEnd <= |lines| && StandsUnder(lines, parent, at)
  {
    ListReaches(lines, parent, at, blockEnd);
    var listEnd := First(lines, parent + 1, blockEnd, IsOutsideList);
    if !BlockReadable(keyValue, lines, top, parent, at, listEnd, blockEnd) then Missing
    else Decide(env, ref, lines, top, parent, at, listEnd, blockEnd, more)
  }

  function ParentOf(env: Env, ref: Ref, lines: seq<Line>, at: nat, top: nat, blockEnd: nat): (parent: nat)
    requires top < at < blockEnd <= |lines| && EntryIsOurs(env, ref, lines, at, top, blockEnd)
    ensures top < parent && StandsUnder(lines, parent, at) && Above(lines, at, top, IsOutsideEntry) == Some(parent)
  {
    Above(lines, at, top, IsOutsideEntry).value
  }

  function FindUnder(env: Env, keyValue: string -> bool, ref: Ref, lines: seq<Line>, top: nat): Own
    requires top < |lines|
  {
    var blockEnd := First(lines, top + 1, |lines|, IsTopLine);
    var at := FirstOurs(env, ref, lines, top + 1, top, blockEnd);
    if at == blockEnd then Missing
    else FindIn(env, keyValue, ref, lines, top, ParentOf(env, ref, lines, at, top, blockEnd), at, blockEnd,
                FirstOurs(env, ref, lines, at + 1, top, blockEnd) < blockEnd)
  }

  function FindStructured(env: Env, keyValue: string -> bool, ref: Ref, b: string): Own {
    var lines := Lines(b);
    if ConfigScan(b) != Mapping(1) || FirstTab(lines) < |lines| then Missing
    else
      var top := First(lines, 0, |lines|, IsHooksLine);
      if top == |lines| then Missing else FindUnder(env, keyValue, ref, lines, top)
  }

  function RemoveOwnEntry(b: string, start: nat, end: nat): string
    requires start <= end <= |Lines(b)|
  {
    Bytes(Lines(b)[..start] + Lines(b)[end..])
  }

  // ── the search, as it is carried out ──

  method CountEvents(lines: seq<Line>, from: nat, end: nat) returns (n: nat)
    requires from <= end <= |lines|
    ensures n == Events(lines, from, end)
  {
    n := 0;
    var k := from;
    while k < end
      invariant from <= k <= end && n + Events(lines, k, end) == Events(lines, from, end)
    {
      if IsEvent(lines[k]) {
        n := n + 1;
      }
      k := k + 1;
    }
  }

  /** Every such place, in order. */
  method Hits(from: nat, end: nat, p: nat -> bool) returns (hits: seq<nat>)
    requires from <= end
    ensures var at := FirstPlace(from, end, p);
            && (hits == [] <==> at == end) && (hits != [] ==> hits[0] == at)
            && (|hits| > 1 <==> at < end && FirstPlace(at + 1, end, p) < end)
  {
    hits := [];
    var i := from;
    while i < end
      invariant from <= i <= end
      invariant hits == [] ==> FirstPlace(i, end, p) == FirstPlace(from, end, p)
      invariant hits != [] ==> hits[0] < i && hits[0] == FirstPlace(from, end, p)
      invariant |hits| == 1 ==> FirstPlace(i, end, p) == FirstPlace(hits[0] + 1, end, p)
      invariant |hits| > 1 ==> FirstPlace(hits[0] + 1, end, p) < end
    {
      if p(i) {
        hits := hits + [i];
      }
      i := i + 1;
    }
  }

  method ReadableBlock(keyValue: string -> bool, lines: seq<Line>, top: nat, parent: nat, at: nat, listEnd: nat,
      blockEnd: nat)
    returns (ok: bool)
    requires top < parent < at < listEnd <= blockEnd <= |lines|
    ensures ok == BlockReadable(keyValue, lines, top, parent, at, listEnd, blockEnd)
  {
    var events := CountEvents(lines, top + 1, blockEnd);
    var stray := Find(lines, parent + 1, listEnd, IsNoItem);
    var odd := Find(lines, top + 1, blockEnd, IsOddDepth);
    ok := events == 1 && stray == listEnd && odd == blockEnd &&
          ReadableFrom(keyValue, lines, CommandEnd(lines, at + 1, listEnd), listEnd, false);
  }

  method FindEntryIn(env: Env, keyValue: string -> bool, ref: Ref, lines: seq<Line>, top: nat, parent: nat, at: nat,
                     blockEnd: nat, more: bool)
    returns (r: Own)
    requires top < parent && at < blockEnd <= |lines| && StandsUnder(lines, parent, at)
    ensures r == FindIn(env, keyValue, ref, lines, top, parent, at, blockEnd, more)
  {
    hide BlockReadable, Decide;
    ListReaches(lines, parent, at, blockEnd);
    var listEnd := Find(lines, parent + 1, blockEnd, IsOutsideList);
    var readable := ReadableBlock(keyValue, lines, top, parent, at, listEnd, blockEnd);
    r := if readable then Decide(env, ref, lines, top, parent, at, listEnd, blockEnd, more) else Missing;
  }

  lemma FoundUnder(env: Env, keyValue: string -> bool, ref: Ref, lines: seq<Line>, top: nat, blockEnd: nat, at: nat,
      more: bool)
    requires top < |lines| && blockEnd == First(lines, top + 1, |lines|, IsTopLine)
    requires at == FirstOurs(env, ref, lines, top + 1, top, blockEnd) && at < blockEnd
    requires more == (FirstOurs(env, ref, lines, at + 1, top, blockEnd) < blockEnd)
    ensures EntryIsOurs(env, ref, lines, at, top, blockEnd)
    ensures FindUnder(env, keyValue, ref, lines, top) ==
            FindIn(env, keyValue, ref, lines, top, ParentOf(env, ref, lines, at, top, blockEnd), at, blockEnd, more)
  {
    hide FindIn, EntryIsOurs;
  }

  method FindBlockEntry(env: Env, keyValue: string -> bool, ref: Ref, lines: seq<Line>, top: nat) returns (r: Own)
    requires top < |lines|
    ensures r == FindUnder(env, keyValue, ref, lines, top)
  {
    hide FindIn, EntryIsOurs;
    var blockEnd := Find(lines, top + 1, |lines|, IsTopLine);
    var hits := Hits(top + 1, blockEnd, OursAt(env, ref, lines, top, blockEnd));
    if hits == [] {
      return Missing;
    }
    var at, more := hits[0], |hits| > 1;
    FoundUnder(env, keyValue, ref, lines, top, blockEnd, at, more);
    var parent := FindAbove(lines, at, top, IsOutsideEntry);
    r := FindEntryIn(env, keyValue, ref, lines, top, parent.value, at, blockEnd, more);
  }

  method FindOwnEntry(env: Env, keyValue: string -> bool, ref: Ref, b: string) returns (r: Own)
    ensures r == FindStructured(env, keyValue, ref, b)
  {
    var scan := ScanConfig(b);
    if scan != Mapping(1) {
      return Missing;
    }
    var lines := HermesLines(b);
    var tab := Find(lines, 0, |lines|, (l: Line) => l.hasTabs);
    TabFound(lines, tab);
    if tab < |lines| {
      return Missing;
    }
    var top := Find(lines, 0, |lines|, IsHooksLine);
    if top == |lines| {
      return Missing;
    }
    r := FindBlockEntry(env, keyValue, ref, lines, top);
  }

  lemma TabFound(lines: seq<Line>, tab: nat)
    requires tab == First(lines, 0, |lines|, (l: Line) => l.hasTabs)
    ensures tab < |lines| <==> FirstTab(lines) < |lines|
  {
  }

  method RemoveEntry(b: string, start: nat, end: nat) returns (s: string)
    requires start <= end <= |Lines(b)|
    ensures s == RemoveOwnEntry(b, start, end)
  {
    var lines := HermesLines(b);
    s := CopyOutside(lines, start, end);
  }
}
