/** Install then uninstall: the block that was appended is recognised and cut, and the file is
    the participant's again. */
module HermesInstall {
  import opened Wrappers
  import opened Text
  import opened Strconv
  import opened Ownership
  import opened Hermes
  import opened HermesBlock

  // ── what a removal takes, in any file ──

  /** Everything that makes lines `begin` to `end` a block this installation may cut. */
  ghost predicate Removable(env: Env, ref: Ref, lines: seq<Line>, begin: nat, end: nat, cmd: string) {
    && MarkedAt(lines, begin, end)
    && IsEntry(lines[begin + 1..end], cmd) && CommandIsOurHook(env, ref, cmd)
    && (var next := NextContent(lines, end + 1); next < |lines| ==> lines[next].indent == 0)
  }

  lemma LeftIffNot(env: Env, ref: Ref, lines: seq<Line>, begin: nat, end: nat)
    requires MarkedAt(lines, begin, end)
    ensures LeftBecause(env, ref, lines, begin, end).None? <==>
            exists cmd :: Removable(env, ref, lines, begin, end, cmd)
  {
    var block := lines[begin + 1..end];
    forall cmd
      ensures Foreign(block, 0) == |block| && ReadBlock(block) == Holds(cmd) <==> IsEntry(block, cmd)
    {
      EntryIff(block, cmd);
    }
    if Foreign(block, 0) == |block| && ReadBlock(block).Holds? {
      var cmd := ReadBlock(block).cmd;
      assert IsEntry(block, cmd);
      assert LeftBecause(env, ref, lines, begin, end).None? <==> Removable(env, ref, lines, begin, end, cmd);
    }
  }

  /** Without the line feed it ends in, and the carriage return before that. */
  function WithoutEnding(s: string): string {
    TrimSuffix(TrimSuffix(s, "\n"), "\r")
  }

  /** What a cut leaves: every line outside the run as it was read. The run is the block and at
      most one blank line in front of it; a line ending goes too only where our note says it
      was ours. */
  ghost predicate CutFrom(b: string, lines: seq<Line>, begin: nat, end: nat, next: string)
    requires begin < end < |lines|
  {
    var start := CutStart(lines, begin);
    var kept := Bytes(lines[..start]) + Bytes(lines[end + 1..]);
    && start <= begin <= start + 1 && (start < begin ==> lines[start].text == "")
    && b == Bytes(lines[..start]) + Bytes(lines[start..end + 1]) + Bytes(lines[end + 1..])
    && next == if EndsByNote(lines, begin, end) then WithoutEnding(kept) else kept
  }

  lemma CutIsFramed(b: string, begin: nat, end: nat)
    requires begin < end < |Lines(b)|
    ensures CutFrom(b, Lines(b), begin, end, Cut(Lines(b), begin, end))
  {
    hide SplitLines, TrimSuffix, Bytes, EndsByNote;
    var lines := Lines(b);
    BytesSplit(b, CutStart(lines, begin), end + 1);
    BytesAppend(lines[..CutStart(lines, begin)], lines[end + 1..]);
  }

  lemma RemovedIsRemovable(env: Env, ref: Ref, b: string)
    requires RemoveOurBlock(env, ref, b).Removed?
    ensures exists begin: nat, end: nat, cmd ::
              Removable(env, ref, Lines(b), begin, end, cmd) &&
              CutFrom(b, Lines(b), begin, end, RemoveOurBlock(env, ref, b).next)
  {
    var m := Marked(Lines(b)).value;
    LeftIffNot(env, ref, Lines(b), m.0, m.1);
    var cmd :| Removable(env, ref, Lines(b), m.0, m.1, cmd);
    CutIsFramed(b, m.0, m.1);
  }

  lemma RemovableIsRemoved(env: Env, ref: Ref, b: string, begin: nat, end: nat, cmd: string)
    requires Removable(env, ref, Lines(b), begin, end, cmd)
    ensures RemoveOurBlock(env, ref, b) == Removed(Cut(Lines(b), begin, end))
  {
    LeftIffNot(env, ref, Lines(b), begin, end);
    assert Marked(Lines(b)) == Some((begin, end));
  }

  /** In any file at all: a block is cut exactly when it is the one block of ours and nothing
      else, its command is this installation's, and nothing after it leans on it; and then
      nothing outside it changes. */
  lemma RemovalIsFramed(env: Env, ref: Ref, b: string)
    ensures RemoveOurBlock(env, ref, b).Removed? <==>
            exists begin: nat, end: nat, cmd :: Removable(env, ref, Lines(b), begin, end, cmd)
    ensures RemoveOurBlock(env, ref, b).Removed? ==>
              exists begin: nat, end: nat, cmd ::
                Removable(env, ref, Lines(b), begin, end, cmd) &&
                CutFrom(b, Lines(b), begin, end, RemoveOurBlock(env, ref, b).next)
  {
    if RemoveOurBlock(env, ref, b).Removed? {
      RemovedIsRemovable(env, ref, b);
    } else {
      forall begin: nat, end: nat, cmd | Removable(env, ref, Lines(b), begin, end, cmd)
        ensures false
      {
        RemovableIsRemoved(env, ref, b, begin, end, cmd);
      }
    }
  }

  lemma BytesOfLines(raws: seq<string>)
    ensures Bytes(ReadLines(raws)) == Concat(raws)
  {
    assert Raws(ReadLines(raws)) == raws;
  }

  lemma BytesSplit(b: string, i: nat, j: nat)
    requires i <= j <= |Lines(b)|
    ensures b == Bytes(Lines(b)[..i]) + Bytes(Lines(b)[i..j]) + Bytes(Lines(b)[j..])
  {
    var lines := Lines(b);
    BytesOfLines(SplitLines(b));
    assert lines == lines[..i] + lines[i..j] + lines[j..];
    BytesAppend(lines[..i] + lines[i..j], lines[j..]);
    BytesAppend(lines[..i], lines[i..j]);
  }

  // ── the file install writes, line by line ──

  predicate NoEnding(existing: string) {
    existing != "" && existing[|existing| - 1] != '\n'
  }

  function Completed(existing: string): string {
    if NoEnding(existing) then existing + "\n" else existing
  }

  /** The participant's lines, the last of them ended, and the blank line after them. */
  function Front(existing: string): seq<string> {
    if existing == "" then [] else SplitLines(Completed(existing)) + ["\n"]
  }

  function Middle(commands: seq<string>, noEnding: bool): seq<string> {
    (if noEnding then [NOTE + "\n"] else []) + [HEADING[0] + "\n", HEADING[1] + "\n"] + commands + [MATCHER_LINE + "\n"]
  }

  /** The appended block, its command on whatever lines `commands` are. */
  function Block(commands: seq<string>, noEnding: bool): seq<string> {
    [BEGIN + "\n"] + Middle(commands, noEnding) + [END + "\n"]
  }

  /** The file with the block appended. */
  function Installed(existing: string, commands: seq<string>): string {
    Concat(Front(existing) + Block(commands, NoEnding(existing)))
  }

  lemma {:induction false} JoinEnded(parts: seq<string>)
    requires parts != []
    ensures Join(parts, "\n") + "\n" == Concat(Ends(parts))
  {
    assert Ends(parts)[1..] == Ends(parts[1..]);
    if |parts| > 1 {
      JoinEnded(parts[1..]);
      assert parts[0] + "\n" + Join(parts[1..], "\n") + "\n" == (parts[0] + "\n") + (Join(parts[1..], "\n") + "\n");
    } else {
      assert Concat([]) == "" && (parts[0] + "\n") + "" == parts[0] + "\n";
    }
  }

  function Ends(parts: seq<string>): (r: seq<string>)
    ensures |r| == |parts|
  {
    seq(|parts|, k requires 0 <= k < |parts| => parts[k] + "\n")
  }

  lemma ConcatOne(s: string)
    ensures Concat([s]) == s
  {
    assert Concat([s]) == s + Concat([s][1..]);
  }

  lemma BlockText(cmd: string, noEnding: bool)
    ensures HookBlock(Body(cmd), noEnding) == Concat(Block([COMMAND_PREFIX + YamlQuote(cmd) + "\n"], noEnding))
  {
    var c := COMMAND_PREFIX + YamlQuote(cmd) + "\n";
    var note := if noEnding then [NOTE + "\n"] else [];
    var body := [HEADING[0] + "\n", HEADING[1] + "\n"] + [c] + [MATCHER_LINE + "\n"];
    JoinEnded(HookLines(cmd));
    assert Ends(HookLines(cmd)) == body;
    assert Block([c], noEnding) == [BEGIN + "\n"] + (note + (body + [END + "\n"]));
    ConcatAppend([BEGIN + "\n"], note + (body + [END + "\n"]));
    ConcatAppend(note, body + [END + "\n"]);
    ConcatAppend(body, [END + "\n"]);
    ConcatOne(BEGIN + "\n");
    ConcatOne(END + "\n");
    ConcatOne(NOTE + "\n");
    Regroup4(BEGIN + "\n", if noEnding then NOTE + "\n" else "", Body(cmd), END);
  }

  lemma Regroup4(a: string, b: string, c: string, d: string)
    ensures a + b + c + d + "\n" == a + (b + (c + (d + "\n")))
  {
  }

  /** What install writes is that file, the command unfolded. */
  lemma AppendIsInstalled(existing: string, cmd: string)
    ensures AppendBlock(existing, Body(cmd)) == Installed(existing, [COMMAND_PREFIX + YamlQuote(cmd) + "\n"])
  {
    var noEnding := NoEnding(existing);
    var block := Block([COMMAND_PREFIX + YamlQuote(cmd) + "\n"], noEnding);
    BlockText(cmd, noEnding);
    ConcatAppend(Front(existing), block);
    if existing == "" {
      assert "" + Concat(block) == Concat(block);
    } else {
      FrontText(existing);
      FrontBytes(existing, Concat(block));
    }
  }

  lemma FrontText(existing: string)
    requires existing != ""
    ensures Concat(Front(existing)) == Completed(existing) + "\n"
  {
    ConcatAppend(SplitLines(Completed(existing)), ["\n"]);
    ConcatOne("\n");
  }

  lemma FrontBytes(existing: string, rest: string)
    ensures Completed(existing) + "\n" + rest == existing + (if NoEnding(existing) then "\n\n" else "\n") + rest
  {
    if NoEnding(existing) {
      assert existing + "\n" + "\n" == existing + "\n\n";
    }
  }

  // ── a block at the end of a file ──

  ghost predicate IsBlock(lines: seq<Line>, cmd: string) {
    && |lines| >= 2 && lines[0].text == BEGIN && lines[|lines| - 1].text == END
    && IsEntry(lines[1..|lines| - 1], cmd)
    && Unmentioned(lines[1..|lines| - 1])
  }

  predicate Unmentioned(lines: seq<Line>) {
    forall k :: 0 <= k < |lines| ==> !Mentions(lines[k].text)
  }

  /** The blank line install put in front of the block is not the participant's. */
  function Own(front: seq<string>): seq<string> {
    if front != [] && ReadLine(front[|front| - 1]).text == "" then front[..|front| - 1] else front
  }

  lemma BetweenMarkers(front: seq<Line>, block: seq<Line>)
    requires |block| >= 2
    ensures (front + block)[|front| + 1..|front + block| - 1] == block[1..|block| - 1]
  {
  }

  lemma MarkedAtEnd(front: seq<Line>, block: seq<Line>)
    requires Unmentioned(front) && |block| >= 2 && Unmentioned(block[1..|block| - 1])
    requires block[0].text == BEGIN && block[|block| - 1].text == END
    ensures MarkedAt(front + block, |front|, |front + block| - 1)
  {
    var lines := front + block;
    forall i | 0 <= i < |lines| && i != |front| && i != |lines| - 1
      ensures !Mentions(lines[i].text)
    {
      if i > |front| {
        assert lines[i] == block[1..|block| - 1][i - |front| - 1];
      }
    }
  }

  ghost predicate Reads(block: seq<Line>, cmd: string) {
    Foreign(block, 0) == |block| && ReadBlock(block) == Holds(cmd)
  }

  lemma BlockReads(lines: seq<Line>, cmd: string)
    requires IsBlock(lines, cmd)
    ensures |lines| > 2 && Reads(lines[1..|lines| - 1], cmd)
  {
    EntryIff(lines[1..|lines| - 1], cmd);
  }

  /** What cutting a block at the end of a file leaves of the lines in front of it. */
  function Leaves(front: seq<string>, block: seq<string>): string
    requires |block| > 1
  {
    if ReadLine(block[1]).text == NOTE then WithoutEnding(Concat(Own(front))) else Concat(Own(front))
  }

  /** One block, at the end of the file, that reads as this command's entry. */
  ghost predicate EndsInBlock(lines: seq<Line>, begin: nat, cmd: string) {
    MarkedAt(lines, begin, |lines| - 1) && Reads(lines[begin + 1..|lines| - 1], cmd)
  }

  lemma BlockEnds(front: seq<Line>, block: seq<Line>, cmd: string)
    requires Unmentioned(front) && IsBlock(block, cmd)
    ensures EndsInBlock(front + block, |front|, cmd)
  {
    MarkedAtEnd(front, block);
    BetweenMarkers(front, block);
    BlockReads(block, cmd);
  }

  /** Whatever its lines end in, a block at the end of a file is cut for the installation whose
      hook it holds, and left for every other. */
  lemma BlockAtEnd(env: Env, ref: Ref, b: string, front: seq<string>, block: seq<string>, cmd: string)
    requires Lines(b) == ReadLines(front + block)
    requires |block| > 2 && EndsInBlock(Lines(b), |front|, cmd)
    ensures RemoveOurBlock(env, ref, b) ==
            if CommandIsOurHook(env, ref, cmd) then Removed(Leaves(front, block)) else Left(NotOurs)
  {
    var lines, end := Lines(b), |Lines(b)| - 1;
    LinesAtEnd(env, ref, b, lines, |front|, end, cmd);
    CutAtEnd(front, block);
    assert end == |front| + |block| - 1;
  }

  lemma LinesOfConcat(raws: seq<string>)
    requires AreLines(raws)
    ensures Lines(Concat(raws)) == ReadLines(raws)
  {
    SplitConcat(raws);
  }

  lemma LinesAppend(a: seq<string>, b: seq<string>)
    ensures ReadLines(a + b) == ReadLines(a) + ReadLines(b)
  {
  }

  lemma LinesAtEnd(env: Env, ref: Ref, b: string, lines: seq<Line>, begin: nat, end: nat, cmd: string)
    requires lines == Lines(b) && MarkedAt(lines, begin, end) && end == |lines| - 1
    requires Reads(lines[begin + 1..end], cmd)
    ensures RemoveOurBlock(env, ref, b) ==
            if CommandIsOurHook(env, ref, cmd) then Removed(Cut(lines, begin, end)) else Left(NotOurs)
  {
    LeftAtEnd(env, ref, lines, begin, end, cmd);
    RemovedAt(env, ref, b, begin, end);
  }

  lemma RemovedAt(env: Env, ref: Ref, b: string, begin: nat, end: nat)
    requires Marked(Lines(b)) == Some((begin, end))
    ensures var why := LeftBecause(env, ref, Lines(b), begin, end);
            RemoveOurBlock(env, ref, b) == if why.Some? then Left(why.value) else Removed(Cut(Lines(b), begin, end))
  {
  }

  lemma LeftAtEnd(env: Env, ref: Ref, lines: seq<Line>, begin: nat, end: nat, cmd: string)
    requires begin < end == |lines| - 1
    requires Reads(lines[begin + 1..end], cmd)
    ensures LeftBecause(env, ref, lines, begin, end) == if CommandIsOurHook(env, ref, cmd) then None else Some(NotOurs)
  {
    assert NextContent(lines, end + 1) == |lines|;
  }

  lemma CutAtEnd(front: seq<string>, block: seq<string>)
    requires |block| > 2
    ensures Cut(ReadLines(front + block), |front|, |front| + |block| - 1) == Leaves(front, block)
  {
    var lines, begin, end := ReadLines(front + block), |front|, |front| + |block| - 1;
    var start := CutStart(lines, begin);
    assert lines[..start] + lines[end + 1..] == ReadLines(Own(front));
    BytesOfLines(Own(front));
    assert lines[begin + 1] == ReadLine(block[1]);
  }

  // ── the lines install writes are such a block ──

  lemma TextOf(t: string)
    requires t != "" && t[|t| - 1] !in ENDINGS
    ensures TrimRight(t + "\n", ENDINGS) == t
  {
    TrimRightOnly(t, "\n", ENDINGS);
  }

  lemma CommentLine(t: string)
    requires t != "" && t[0] == '#' && t[|t| - 1] !in ENDINGS
    ensures ReadLine(t + "\n") == Line(t + "\n", t, -1, false)
  {
    TextOf(t);
  }

  lemma ContentLine(pad: string, body: string)
    requires body != "" && body[0] != '#' && body[0] !in BLANKS && body[|body| - 1] !in ENDINGS
    requires forall j :: 0 <= j < |pad| ==> pad[j] == ' '
    ensures ReadLine(pad + body + "\n") == Line(pad + body + "\n", pad + body, |pad|, false)
  {
    TextOf(pad + body);
    Indented(ReadLine(pad + body + "\n"), pad, body);
  }

  lemma NoLineFeed(t: string)
    requires '\n' !in t
    ensures IsLine(t + "\n") && Ended(t + "\n")
  {
    assert (t + "\n")[..|t|] == t;
  }

  lemma NotContained(t: string, p: string, c: char)
    requires |p| > 2 && p[2] == c && c !in t
    ensures !Contains(t, p)
  {
    OccursHas(t, p, 2);
  }

  lemma MarkersThird()
    ensures |BEGIN| > 2 && BEGIN[2] == '>' && |END| > 2 && END[2] == '<'
  {
  }

  /** A marker cannot be where its third character is not. */
  lemma NotMentioned(t: string)
    requires '>' !in t && '<' !in t
    ensures !Mentions(t)
  {
    MarkersThird();
    NotContained(t, BEGIN, '>');
    NotContained(t, END, '<');
  }

  lemma NotIn(a: string, b: string, d: string, c: char)
    requires c !in a && c !in b && c !in d
    ensures c !in a + b + d
  {
  }

  lemma NoteFirstPart()
    ensures Without(NOTE_HEAD, {'\n', '<', '>'})
  {
  }

  lemma NoteMiddlePart()
    ensures Without(NOTE_BODY, {'\n', '<', '>'})
  {
  }

  lemma NoteLastPart()
    ensures Without(NOTE_TAIL, {'\n', '<', '>'})
  {
  }

  lemma NoteHas(c: char)
    requires c in {'\n', '<', '>'}
    ensures c !in NOTE
  {
    NoteFirstPart();
    NoteMiddlePart();
    NoteLastPart();
    NotIn(NOTE_HEAD, NOTE_BODY, NOTE_TAIL, c);
  }

  lemma NoteEnds()
    ensures NOTE != "" && NOTE[0] == '#' && NOTE[|NOTE| - 1] == 't'
  {
    Edges(NOTE_HEAD, NOTE_BODY, NOTE_TAIL);
  }

  lemma Edges(a: string, b: string, d: string)
    requires a != "" && d != ""
    ensures (a + b + d)[0] == a[0] && (a + b + d)[|a + b + d| - 1] == d[|d| - 1]
  {
  }

  /** A line of the block, as it is written and as it is read. */
  ghost predicate Fixed(text: string, indent: int) {
    && ReadLine(text + "\n") == Line(text + "\n", text, indent, false)
    && IsLine(text + "\n") && Ended(text + "\n")
  }

  lemma CommentFixed(t: string)
    requires t != "" && t[0] == '#' && t[|t| - 1] !in ENDINGS && '\n' !in t
    ensures Fixed(t, -1)
  {
    CommentLine(t);
    NoLineFeed(t);
  }

  lemma ContentFixed(t: string, pad: string, body: string)
    requires t == pad + body
    requires body != "" && body[0] != '#' && body[0] !in BLANKS && body[|body| - 1] !in ENDINGS && '\n' !in body
    requires forall j :: 0 <= j < |pad| ==> pad[j] == ' '
    ensures Fixed(t, |pad|)
  {
    ContentLine(pad, body);
    assert '\n' !in pad;
    NoLineFeed(pad + body);
  }

  predicate Without(t: string, cs: set<char>) {
    forall c :: c in cs ==> c !in t
  }

  lemma BeginFixed()
    ensures Fixed(BEGIN, -1)
  {
    assert Without(BEGIN, {'\n'});
    CommentFixed(BEGIN);
  }

  lemma EndFixed()
    ensures Fixed(END, -1)
  {
    assert Without(END, {'\n'});
    CommentFixed(END);
  }

  lemma NoteFixed()
    ensures Fixed(NOTE, -1) && !Mentions(NOTE)
  {
    NoteEnds();
    NoteHas('<');
    NoteHas('>');
    NoteHas('\n');
    NotMentioned(NOTE);
    CommentFixed(NOTE);
  }

  lemma HooksFixed()
    ensures Fixed(HEADING[0], 0) && !Mentions(HEADING[0]) && HEADING[0] != NOTE
  {
    NoteEnds();
    assert HEADING[0] == "" + HOOKS && HEADING[0][0] != NOTE[0];
    assert Without(HOOKS, {'\n', '<', '>'});
    NotMentioned(HEADING[0]);
    ContentFixed(HEADING[0], "", HOOKS);
  }

  lemma EventFixed()
    ensures Fixed(HEADING[1], 2) && !Mentions(HEADING[1])
  {
    assert HEADING[1] == "  " + EVENT;
    assert Without(EVENT, {'\n', '<', '>'});
    NotMentioned(HEADING[1]);
    ContentFixed(HEADING[1], "  ", EVENT);
  }

  lemma MatcherFixed()
    ensures Fixed(MATCHER_LINE, 6) && !Mentions(MATCHER_LINE)
  {
    var body := MATCHER_KEY + ([DOUBLE] + MATCHER + [DOUBLE]);
    assert Without(body, {'\n', '<', '>'});
    NotMentioned(MATCHER_LINE);
    ContentFixed(MATCHER_LINE, "      ", body);
  }

  lemma MatcherDecodes()
    ensures DecodeScalar([DOUBLE] + MATCHER + [DOUBLE]) == Some(MATCHER)
  {
    var v := [DOUBLE] + MATCHER + [DOUBLE];
    assert v[1..|v| - 1] == MATCHER;
    PlainUnescaped(MATCHER);
  }

  lemma Cuts(a: string, b: string)
    ensures (a + b)[|a|..] == b && a <= a + b
  {
  }

  lemma MatcherIsOurs()
    ensures IsOurMatcher(Line(MATCHER_LINE + "\n", MATCHER_LINE, 6, false))
  {
    var v := [DOUBLE] + MATCHER + [DOUBLE];
    Cuts("      ", MATCHER_KEY + v);
    Cuts(MATCHER_KEY, v);
    MatcherDecodes();
    assert TrimLeft(v, {' '}) == v && TrimRight(v, BLANKS) == v;
  }
}
