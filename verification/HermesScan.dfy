/** What the scan of the top level says of a file, told of the file: which lines it has, and how many of
    them are a hooks key. */
module HermesScan {
  import opened Wrappers
  import opened Text
  import opened Hermes
  import opened HermesEntry

  // ── the lines of a configuration ──

  /** A line without its line feed and the white space at its end. */
  function Bare(raw: string): string {
    TrimRight(TrimSuffix(raw, "\n"), SCAN_CUT)
  }

  /** Blank, or a comment at any indent. */
  predicate IsBlank(line: string) {
    line == "" || (var bare := TrimLeft(line, BLANKS); bare != "" && bare[0] == '#')
  }

  predicate IsIndented(line: string) {
    !IsBlank(line) && line[0] in BLANKS
  }

  /** A line that opens a document, and one that ends it. */
  predicate IsOpening(line: string) {
    line == "---" || "--- " <= line
  }

  predicate IsEnding(line: string) {
    line == "..."
  }

  /** Anything else in the first column that is no directive: a key, if it is one. */
  predicate IsTop(line: string) {
    !IsBlank(line) && line[0] !in BLANKS && line[0] != '%' && !IsOpening(line) && !IsEnding(line)
  }

  predicate IsHooksKey(line: string) {
    IsTop(line) && var k := TopLevelKey(line); k.Some? && EqualFold(k.value, "hooks")
  }

  predicate IsContent(line: string) {
    IsIndented(line) || IsTop(line)
  }

  /** One document of plain top-level keys, everything else indented under one of them: no line ends a
      document or opens one behind anything, and nothing is indented before the first key. */
  ghost predicate PlainMapping(raws: seq<string>) {
    && (forall i :: 0 <= i < |raws| ==> !IsEnding(Bare(raws[i])))
    && (forall i, j :: 0 <= i < j < |raws| && IsOpening(Bare(raws[j])) ==>
          !IsOpening(Bare(raws[i])) && !IsContent(Bare(raws[i])))
    && (forall i :: 0 <= i < |raws| && IsTop(Bare(raws[i])) ==> TopLevelKey(Bare(raws[i])).Some?)
    && (forall i :: 0 <= i < |raws| && IsIndented(Bare(raws[i])) ==> exists j :: 0 <= j < i && IsTop(Bare(raws[j])))
  }

  /** Which lines are a hooks key. */
  function HooksKeys(raws: seq<string>): set<nat> {
    set i: nat | i < |raws| && IsHooksKey(Bare(raws[i]))
  }

  // ── what the scan has seen ──

  ghost predicate Any(raws: seq<string>, p: string -> bool) {
    exists i :: 0 <= i < |raws| && p(Bare(raws[i]))
  }

  lemma AnyAppend(raws: seq<string>, raw: string, p: string -> bool)
    ensures Any(raws + [raw], p) <==> Any(raws, p) || p(Bare(raw))
  {
    hide Bare;
    var all := raws + [raw];
    if i :| 0 <= i < |raws| && p(Bare(raws[i])) {
      assert p(Bare(all[i]));
    }
    if p(Bare(raw)) {
      assert p(Bare(all[|raws|]));
    }
  }

  ghost predicate Tracks(raws: seq<string>, seen: Seen) {
    && (seen.document <==> Any(raws, IsOpening)) && (seen.content <==> Any(raws, IsContent))
    && (seen.rooted <==> Any(raws, IsTop)) && seen.hooks == |HooksKeys(raws)|
  }

  lemma NoLines()
    ensures PlainMapping([]) && Tracks([], Seen(false, false, false, 0))
  {
    assert HooksKeys([]) == {};
  }

  lemma OneMoreKey(raws: seq<string>, raw: string)
    ensures |HooksKeys(raws + [raw])| == |HooksKeys(raws)| + if IsHooksKey(Bare(raw)) then 1 else 0
  {
    hide IsHooksKey, Bare;
    var n: nat := |raws|;
    assert HooksKeys(raws + [raw]) == HooksKeys(raws) + if IsHooksKey(Bare(raw)) then {n} else {};
    assert n !in HooksKeys(raws);
  }

  lemma PlainPrefix(raws: seq<string>, raw: string)
    requires PlainMapping(raws + [raw])
    ensures PlainMapping(raws)
  {
    hide IsEnding, IsOpening, IsTop, IsIndented, IsContent, TopLevelKey, Bare;
    var all := raws + [raw];
    assert forall i :: 0 <= i < |raws| ==> raws[i] == all[i];
  }

  /** Whether a line may come behind these. */
  ghost predicate MayFollow(raws: seq<string>, line: string) {
    && !IsEnding(line) && (IsOpening(line) ==> !Any(raws, IsOpening) && !Any(raws, IsContent))
    && (IsTop(line) ==> TopLevelKey(line).Some?) && (IsIndented(line) ==> Any(raws, IsTop))
  }

  lemma PlainStep(raws: seq<string>, raw: string)
    requires PlainMapping(raws) && MayFollow(raws, Bare(raw))
    ensures PlainMapping(raws + [raw])
  {
    hide IsEnding, IsOpening, IsTop, IsIndented, IsContent, TopLevelKey, Bare;
    var all := raws + [raw];
    assert forall i :: 0 <= i < |raws| ==> all[i] == raws[i];
    forall i | 0 <= i < |all| && IsIndented(Bare(all[i]))
      ensures exists j :: 0 <= j < i && IsTop(Bare(all[j]))
    {
      var j :| 0 <= j < |raws| && j < i && IsTop(Bare(raws[j]));
      assert IsTop(Bare(all[j]));
    }
  }

  lemma PlainLast(raws: seq<string>, raw: string)
    requires PlainMapping(raws + [raw])
    ensures MayFollow(raws, Bare(raw))
  {
    hide IsEnding, IsOpening, IsTop, IsIndented, IsContent, TopLevelKey, Bare;
    var all, n := raws + [raw], |raws|;
    assert all[n] == raw && forall i :: 0 <= i < n ==> raws[i] == all[i];
    if IsIndented(Bare(raw)) {
      var j :| 0 <= j < n && IsTop(Bare(all[j]));
      assert IsTop(Bare(raws[j]));
    }
  }

  /** One step of the scan, by what the line is. */
  lemma ScanStep(raw: string, seen: Seen)
    ensures var r, line := ScanLine(raw, seen), Bare(raw);
            && (r.0.None? <==>
                 && !IsEnding(line) && (IsOpening(line) ==> !seen.document && !seen.content)
                 && (IsTop(line) ==> TopLevelKey(line).Some?) && (IsIndented(line) ==> seen.rooted))
            && (r.0.None? ==>
                 r.1 == Seen(seen.document || IsOpening(line), seen.content || IsContent(line),
                             seen.rooted || IsTop(line), seen.hooks + if IsHooksKey(line) then 1 else 0))
  {
    hide TopLevelKey, TrimRight, TrimSuffix, TrimLeft;
    FirstColumn(Bare(raw));
  }

  lemma FirstColumn(line: string)
    ensures IsOpening(line) ==> line[0] == '-' && !IsEnding(line)
    ensures IsEnding(line) ==> line[0] == '.'
    ensures IsOpening(line) || IsEnding(line) ==> !IsBlank(line)
  {
    assert "--- "[0] == '-' && "---"[0] == '-' && "..."[0] == '.';
    assert IsOpening(line) || IsEnding(line) ==> TrimLeft(line, BLANKS) == line;
  }

  lemma {:induction false} ScanFromIs(done: seq<string>, raws: seq<string>, seen: Seen)
    requires PlainMapping(done) && Tracks(done, seen)
    ensures var r := ScanFrom(raws, seen);
            && (r.Mapping? <==> PlainMapping(done + raws))
            && (r.Mapping? ==> r.hooks == |HooksKeys(done + raws)|)
    decreases |raws|
  {
    hide PlainMapping, IsEnding, IsOpening, IsTop, IsIndented, IsContent, IsHooksKey, TopLevelKey, Bare, HooksKeys, Any,
         ScanLine;
    if raws == [] {
      assert done + raws == done;
    } else {
      var raw := raws[0];
      var next, r := done + [raw], ScanLine(raw, seen);
      ScanStep(raw, seen);
      assert next + raws[1..] == done + raws;
      if r.0.None? {
        PlainStep(done, raw);
        OneMoreKey(done, raw);
        AnyAppend(done, raw, IsOpening);
        AnyAppend(done, raw, IsContent);
        AnyAppend(done, raw, IsTop);
        ScanFromIs(next, raws[1..], r.1);
      } else {
        if PlainMapping(done + raws) {
          PlainFront(next, raws[1..]);
          PlainLast(done, raw);
        }
      }
    }
  }

  lemma {:induction false} PlainFront(raws: seq<string>, rest: seq<string>)
    requires PlainMapping(raws + rest)
    ensures PlainMapping(raws)
    decreases |rest|
  {
    hide PlainMapping;
    if rest == [] {
      assert raws + rest == raws;
    } else {
      var n := |rest| - 1;
      assert raws + rest == (raws + rest[..n]) + [rest[n]];
      PlainPrefix(raws + rest[..n], rest[n]);
      PlainFront(raws, rest[..n]);
    }
  }

  /** The scan vouches for a file exactly where it has no marker text and is a plain mapping, and then
      it has counted the hooks keys. */
  lemma ScanIff(b: string)
    ensures ConfigScan(b).Mapping? <==> !Mentions(b) && PlainMapping(SplitLines(b))
    ensures ConfigScan(b).Mapping? ==> ConfigScan(b).hooks == |HooksKeys(SplitLines(b))|
  {
    hide PlainMapping, Tracks, ScanFrom, HooksKeys, SplitLines;
    NoLines();
    var raws := SplitLines(b);
    assert [] + raws == raws;
    ScanFromIs([], raws, Seen(false, false, false, 0));
  }

  // ── the spellings of a key ──

  lemma {:induction false} IndexCharAt(a: string, c: char, rest: string)
    requires c !in a
    ensures IndexChar(a + [c] + rest, c) == |a|
  {
    var s := a + [c] + rest;
    assert s[|a|] == c;
    assert forall k :: 0 <= k < |a| ==> s[k] == a[k];
  }

  lemma NoneAdded(key: string, blanks: string)
    requires !AnyOf(key, NOT_IN_KEYS) && forall c :: c in blanks ==> c in BLANKS
    ensures !AnyOf(key + blanks, NOT_IN_KEYS)
  {
    forall k | 0 <= k < |key + blanks|
      ensures (key + blanks)[k] !in NOT_IN_KEYS
    {
      if k >= |key| {
        BlankIsNone((key + blanks)[k]);
      }
    }
  }

  lemma BlankIsNone(c: char)
    requires c in BLANKS
    ensures c !in NOT_IN_KEYS
  {
  }

  /** What comes behind a key: blanks, a colon, and a value set off from it or none. */
  predicate Behind(rest: string, blanks: string, value: string) {
    rest == blanks + ":" + value && (forall c :: c in blanks ==> c in BLANKS) && (value == "" || value[0] in BLANKS)
  }

  /** A plain key: no colon in it, none of the characters YAML reserves, no blank at its end. */
  predicate PlainForm(line: string, key: string, blanks: string, value: string) {
    && key <= line && Behind(line[|key|..], blanks, value)
    && ':' !in key && !AnyOf(key, NOT_IN_KEYS) && (key != "" ==> key[|key| - 1] !in BLANKS)
  }

  /** A quoted one: to the next quote of its kind, and with nothing escaped in double quotes. */
  predicate QuotedForm(line: string, q: char, quoted: string, blanks: string, value: string) {
    && (q == SINGLE || q == DOUBLE) && q !in quoted && (q == DOUBLE ==> BACKSLASH !in line)
    && [q] + quoted + [q] <= line && Behind(line[|quoted| + 2..], blanks, value)
  }

  lemma BehindReads(rest: string, blanks: string, value: string)
    requires Behind(rest, blanks, value)
    ensures TrimLeft(rest, BLANKS) == ":" + value && (":" + value)[0] == ':' && (":" + value)[1..] == value
  {
    assert rest == blanks + (":" + value);
    TrimLeftOnly(blanks, ":" + value, BLANKS);
  }

  lemma ColonFirst(rest: string)
    requires rest != "" && rest[0] == ':'
    ensures TrimLeft(rest, BLANKS) == rest
  {
  }

  lemma PlainAt(line: string, colon: nat)
    requires line != "" && line[0] != SINGLE && line[0] != DOUBLE && IndexChar(line, ':') == colon < |line|
    requires !AnyOf(line[..colon], NOT_IN_KEYS) && (|line| > colon + 1 ==> line[colon + 1] in BLANKS)
    ensures TopLevelKey(line) == Some(TrimRight(line[..colon], BLANKS))
  {
    hide IndexChar, AnyOf, TrimLeft, TrimRight;
    ColonFirst(line[colon..]);
  }

  lemma PlainTaken(line: string, key: string, blanks: string, value: string)
    requires PlainForm(line, key, blanks, value)
    ensures line != "" && TopLevelKey(line) == Some(key)
  {
    hide IndexChar, AnyOf, TrimLeft, TrimRight, TopLevelKey;
    assert line == key + line[|key|..];
    assert line == (key + blanks) + [':'] + value;
    IndexCharAt(key + blanks, ':', value);
    assert line[..|key + blanks|] == key + blanks;
    NoneAdded(key, blanks);
    NoQuoteFirst(line, key, blanks, value);
    TrimRightOnly(key, blanks, BLANKS);
    PlainAt(line, |key + blanks|);
  }

  lemma NoQuoteFirst(line: string, key: string, blanks: string, value: string)
    requires PlainForm(line, key, blanks, value) && line == key + blanks + [':'] + value
    ensures line[0] != SINGLE && line[0] != DOUBLE
  {
    assert NOT_IN_KEYS[10] == SINGLE && NOT_IN_KEYS[11] == DOUBLE;
    if key != "" {
      assert line[0] == key[0] && key[0] !in NOT_IN_KEYS;
    } else if blanks != "" {
      assert line[0] == blanks[0] && blanks[0] in blanks;
    }
  }

  lemma QuotedTaken(line: string, q: char, quoted: string, blanks: string, value: string)
    requires QuotedForm(line, q, quoted, blanks, value)
    ensures line != "" && TopLevelKey(line) == Some(TrimRight(quoted, BLANKS))
  {
    hide IndexChar, TrimLeft, TrimRight;
    var rest := line[|quoted| + 2..];
    assert line == [q] + quoted + [q] + rest;
    assert line[1..] == quoted + [q] + rest;
    IndexCharAt(quoted, q, rest);
    assert line[1..1 + |quoted|] == quoted;
    BehindReads(rest, blanks, value);
  }

  lemma RestReads(rest: string)
    requires var r := TrimLeft(rest, BLANKS); r != "" && r[0] == ':' && (|r| == 1 || r[1] in BLANKS)
    ensures exists blanks, value :: Behind(rest, blanks, value)
  {
    var r := TrimLeft(rest, BLANKS);
    TrimLeftTakes(rest, BLANKS);
    var blanks, value := rest[..|rest| - |r|], r[1..];
    assert rest == blanks + ":" + value;
    assert Behind(rest, blanks, value);
  }

  lemma PlainRead(line: string)
    requires line != "" && line[0] != SINGLE && line[0] != DOUBLE && TopLevelKey(line).Some?
    ensures exists blanks, value :: PlainForm(line, TopLevelKey(line).value, blanks, value)
  {
    hide IndexChar, AnyOf, TrimLeft, TrimRight;
    var colon := IndexChar(line, ':');
    var front, key := line[..colon], TopLevelKey(line).value;
    TrimRightTakes(front, BLANKS);
    var blanks, value := front[|key|..], line[colon + 1..];
    ColonFirst(line[colon..]);
    assert line[|key|..] == blanks + ":" + value;
    assert value == line[colon..][1..];
    KeyHasNone(front, key);
    assert PlainForm(line, key, blanks, value);
  }

  lemma KeyHasNone(front: string, key: string)
    requires key <= front && !AnyOf(front, NOT_IN_KEYS)
    ensures !AnyOf(key, NOT_IN_KEYS)
  {
    assert forall k :: 0 <= k < |key| ==> key[k] == front[k];
  }

  lemma QuotedRead(line: string)
    requires line != "" && (line[0] == SINGLE || line[0] == DOUBLE) && TopLevelKey(line).Some?
    ensures exists quoted, blanks, value ::
              QuotedForm(line, line[0], quoted, blanks, value) && TopLevelKey(line).value == TrimRight(quoted, BLANKS)
  {
    hide IndexChar, TrimLeft, TrimRight;
    var q, end := line[0], IndexChar(line[1..], line[0]);
    var quoted, rest := line[1..1 + end], line[1 + end + 1..];
    assert line[1 + end] == line[1..][end] == q;
    assert [q] + quoted + [q] == line[..end + 2];
    assert q !in quoted;
    RestReads(rest);
    var blanks, value :| Behind(rest, blanks, value);
    assert line[|quoted| + 2..] == rest;
    assert QuotedForm(line, q, quoted, blanks, value);
  }

  /** A line has a key exactly in these two forms, and it is that key. */
  lemma KeyIff(line: string, key: string)
    ensures line != "" && TopLevelKey(line) == Some(key) <==>
            || (exists blanks, value :: PlainForm(line, key, blanks, value))
            || (exists q, quoted, blanks, value ::
                  QuotedForm(line, q, quoted, blanks, value) && key == TrimRight(quoted, BLANKS))
  {
    hide TopLevelKey, PlainForm, QuotedForm, TrimRight;
    if blanks, value :| PlainForm(line, key, blanks, value) {
      PlainTaken(line, key, blanks, value);
    }
    if q, quoted, blanks, value :| QuotedForm(line, q, quoted, blanks, value) && key == TrimRight(quoted, BLANKS) {
      QuotedTaken(line, q, quoted, blanks, value);
    }
    if line != "" && TopLevelKey(line) == Some(key) {
      if line[0] == SINGLE || line[0] == DOUBLE {
        QuotedRead(line);
      } else {
        PlainRead(line);
      }
    }
  }

  // ── every spelling of hooks ──

  /** A letter of the word, in either case. */
  predicate IsLetter(c: char) {
    c != ':' && c !in NOT_IN_KEYS && c !in BLANKS && c != BACKSLASH && c != '-' && c != '.'
  }

  lemma FoldsToLetter(c: char)
    requires Fold(c) in "hoks"
    ensures IsLetter(c)
  {
  }

  lemma HooksLetters(w: string)
    requires EqualFold(w, "hooks")
    ensures |w| == 5 && forall c :: c in w ==> IsLetter(c)
  {
    forall c | c in w
      ensures IsLetter(c)
    {
      var k :| 0 <= k < |w| && w[k] == c;
      assert "hooks"[k] in "hoks";
      FoldsToLetter(c);
    }
  }

  lemma LetterStarts(line: string)
    requires line != "" && (IsLetter(line[0]) || line[0] == SINGLE || line[0] == DOUBLE)
    ensures IsTop(line)
  {
    FirstColumn(line);
    assert TrimLeft(line, BLANKS) == line;
    assert '#' in NOT_IN_KEYS && '%' in NOT_IN_KEYS by {
      assert NOT_IN_KEYS[0] == '#' && NOT_IN_KEYS[12] == '%';
    }
  }

  /** A line that spells the key plainly, in any case, counts. */
  lemma HooksIsCounted(w: string, blanks: string, value: string)
    requires EqualFold(w, "hooks")
    requires (forall c :: c in blanks ==> c in BLANKS) && (value == "" || value[0] in BLANKS)
    ensures IsHooksKey(w + blanks + ":" + value)
  {
    hide TopLevelKey, EqualFold, IsLetter, IsTop;
    HooksLetters(w);
    var line := w + blanks + ":" + value;
    assert line[0] == w[0] && w[0] in w && w[|w| - 1] in w;
    PlainWord(w);
    assert line[|w|..] == blanks + ":" + value;
    PlainTaken(line, w, blanks, value);
    LetterStarts(line);
  }

  lemma PlainWord(w: string)
    requires w != "" && forall c :: c in w ==> IsLetter(c)
    ensures ':' !in w && !AnyOf(w, NOT_IN_KEYS) && w[|w| - 1] !in BLANKS && BACKSLASH !in w
    ensures SINGLE !in w && DOUBLE !in w
  {
    assert NOT_IN_KEYS[10] == SINGLE && NOT_IN_KEYS[11] == DOUBLE;
    forall k | 0 <= k < |w|
      ensures IsLetter(w[k])
    {
      assert w[k] in w;
    }
  }

  lemma NothingTrimmed(w: string)
    requires w != "" && w[|w| - 1] !in BLANKS
    ensures TrimRight(w, BLANKS) == w
  {
  }

  lemma NothingEscaped(q: char, w: string, blanks: string, value: string)
    requires q != BACKSLASH && BACKSLASH !in w && BACKSLASH !in blanks && BACKSLASH !in value
    ensures BACKSLASH !in [q] + w + [q] + blanks + ":" + value
  {
    NotInJoin(BACKSLASH, [q], w);
    NotInJoin(BACKSLASH, [q] + w, [q]);
    NotInJoin(BACKSLASH, [q] + w + [q], blanks);
    NotInJoin(BACKSLASH, [q] + w + [q] + blanks, ":");
    NotInJoin(BACKSLASH, [q] + w + [q] + blanks + ":", value);
  }

  lemma QuotedSplits(q: char, w: string, rest: string)
    ensures var line := [q] + w + [q] + rest; [q] + w + [q] <= line && line[|w| + 2..] == rest
  {
  }

  lemma IsBehind(blanks: string, value: string)
    requires (forall c :: c in blanks ==> c in BLANKS) && (value == "" || value[0] in BLANKS)
    ensures Behind(blanks + ":" + value, blanks, value) && BACKSLASH !in blanks
  {
  }

  lemma QuotedWord(q: char, w: string, blanks: string, value: string)
    requires (q == SINGLE || q == DOUBLE) && (q == DOUBLE ==> BACKSLASH !in value)
    requires BACKSLASH !in w && SINGLE !in w && DOUBLE !in w && w != "" && w[|w| - 1] !in BLANKS
    requires (forall c :: c in blanks ==> c in BLANKS) && (value == "" || value[0] in BLANKS)
    ensures QuotedForm([q] + w + [q] + blanks + ":" + value, q, w, blanks, value) && TrimRight(w, BLANKS) == w
  {
    hide TrimRight, Behind;
    NothingTrimmed(w);
    IsBehind(blanks, value);
    var rest := blanks + ":" + value;
    Joined([q] + w + [q], blanks, ":", value);
    QuotedSplits(q, w, rest);
    if q == DOUBLE {
      NothingEscaped(q, w, blanks, value);
    }
  }

  lemma Joined(a: string, b: string, c: string, d: string)
    ensures a + (b + c + d) == a + b + c + d
  {
  }

  lemma NotInJoin(c: char, a: string, b: string)
    requires c !in a && c !in b
    ensures c !in a + b
  {
  }

  /** And so does one that quotes it. */
  lemma QuotedHooksIsCounted(q: char, w: string, blanks: string, value: string)
    requires EqualFold(w, "hooks") && (q == SINGLE || q == DOUBLE) && (q == DOUBLE ==> BACKSLASH !in value)
    requires (forall c :: c in blanks ==> c in BLANKS) && (value == "" || value[0] in BLANKS)
    ensures IsHooksKey([q] + w + [q] + blanks + ":" + value)
  {
    hide TopLevelKey, EqualFold, IsLetter, IsTop;
    HooksLetters(w);
    PlainWord(w);
    var line := [q] + w + [q] + blanks + ":" + value;
    assert line == [q] + w + [q] + (blanks + ":" + value);
    QuotedWord(q, w, blanks, value);
    QuotedTaken(line, q, w, blanks, value);
    LetterStarts(line);
  }

  // ── whether install may append ──

  /** hermesConfigRefusal. */
  predicate ConfigRefused(b: string) {
    ConfigScan(b) != Mapping(0)
  }

  /** Install appends to a file exactly where it is a plain mapping without a hooks key or marker text. */
  lemma RefusedIff(b: string)
    ensures ConfigRefused(b) <==>
            Mentions(b) || !PlainMapping(SplitLines(b)) ||
            exists i :: 0 <= i < |SplitLines(b)| && IsHooksKey(Bare(SplitLines(b)[i]))
  {
    hide PlainMapping, IsHooksKey, ConfigScan, SplitLines, Bare;
    ScanIff(b);
    var raws := SplitLines(b);
    if i: nat :| i < |raws| && IsHooksKey(Bare(raws[i])) {
      assert i in HooksKeys(raws);
    }
    NoKeys(HooksKeys(raws));
  }

  lemma NoKeys(s: set<nat>)
    ensures |s| == 0 <==> forall i :: i !in s
  {
    assert |s| == 0 <==> s == {};
  }
}
