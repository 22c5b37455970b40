/** An appended block, its command folded anywhere, is cut again and leaves the participant's file. */
module HermesRoundTrip {
  import opened Wrappers
  import opened Text
  import opened Ownership
  import opened Hermes
  import opened HermesBlock
  import opened HermesInstall

  // ── the appended block is one of ours, however its command is folded ──

  ghost predicate AllEnded(raws: seq<string>) {
    forall k :: 0 <= k < |raws| ==> IsLine(raws[k]) && Ended(raws[k])
  }

  /** Lines a command may be folded over: ended, without marker text or tabs in front. */
  ghost predicate FoldsTo(commands: seq<string>, cmd: string) {
    && AllEnded(commands) && Unmentioned(ReadLines(commands))
    && (forall k :: 0 <= k < |commands| ==> !ReadLines(commands)[k].hasTabs)
    && FoldedCommand(ReadLines(commands), cmd)
  }

  lemma CommandIndent(l: Line)
    requires l == ReadLine(l.raw) && COMMAND_PREFIX <= l.text
    ensures l.indent == 4
  {
    var body := l.text[4..];
    assert COMMAND_PREFIX[..4] == "    " && COMMAND_PREFIX[4] == '-';
    assert l.text == "    " + body && body[0] == COMMAND_PREFIX[4];
    Indented(l, "    ", body);
  }

  function Fore(noEnding: bool): seq<string> {
    (if noEnding then [NOTE + "\n"] else []) + [HEADING[0] + "\n", HEADING[1] + "\n"]
  }

  /** The lines above a command: our note or nothing, and our two headings. */
  ghost predicate IsFore(fore: seq<Line>, noEnding: bool) {
    && |fore| == (if noEnding then 3 else 2)
    && (noEnding ==> fore[0].indent < 0 && fore[0].text == NOTE)
    && fore[|fore| - 2].text == HEADING[0] && fore[|fore| - 1].text == HEADING[1]
    && fore[|fore| - 2].indent == 0 && fore[|fore| - 1].indent == 2
    && (forall k :: 0 <= k < |fore| ==> !fore[k].hasTabs)
  }

  lemma TwoRead(a: string, b: string)
    ensures ReadLines([a, b]) == [ReadLine(a), ReadLine(b)]
    ensures ReadLines([a]) == [ReadLine(a)]
  {
  }

  lemma ForeLines(noEnding: bool)
    ensures ReadLines(Fore(noEnding)) ==
            (if noEnding then [ReadLine(NOTE + "\n")] else []) +
              [ReadLine(HEADING[0] + "\n"), ReadLine(HEADING[1] + "\n")]
  {
    TwoRead(HEADING[0] + "\n", HEADING[1] + "\n");
    TwoRead(NOTE + "\n", "");
    LinesAppend(if noEnding then [NOTE + "\n"] else [], [HEADING[0] + "\n", HEADING[1] + "\n"]);
    assert ReadLines([]) == [];
  }

  lemma ForeEnded(noEnding: bool)
    ensures AllEnded(Fore(noEnding))
  {
    NoteFixed();
    HooksFixed();
    EventFixed();
  }

  lemma ForeReads(noEnding: bool)
    ensures IsFore(ReadLines(Fore(noEnding)), noEnding)
    ensures Unmentioned(ReadLines(Fore(noEnding))) && (!noEnding ==> ReadLines(Fore(noEnding))[0].text != NOTE)
  {
    ForeLines(noEnding);
    NoteFixed();
    HooksFixed();
    EventFixed();
    ForeIs(ReadLine(NOTE + "\n"), ReadLine(HEADING[0] + "\n"), ReadLine(HEADING[1] + "\n"), noEnding);
  }

  lemma ForeIs(note: Line, hooks: Line, event: Line, noEnding: bool)
    requires note.indent < 0 && note.text == NOTE && hooks.text == HEADING[0] && event.text == HEADING[1]
    requires hooks.indent == 0 && event.indent == 2 && !note.hasTabs && !hooks.hasTabs && !event.hasTabs
    requires !Mentions(note.text) && !Mentions(hooks.text) && !Mentions(event.text)
    ensures var f := (if noEnding then [note] else []) + [hooks, event]; IsFore(f, noEnding) && Unmentioned(f)
  {
  }

  lemma EntryOf(fore: seq<Line>, noEnding: bool, commands: seq<Line>, matcher: Line, cmd: string)
    requires IsFore(fore, noEnding) && FoldedCommand(commands, cmd) && commands[0].indent == 4
    requires forall k :: 0 <= k < |commands| ==> !commands[k].hasTabs
    requires IsOurMatcher(matcher) && !matcher.hasTabs
    ensures IsEntry(fore + commands + [matcher], cmd)
  {
    var lines, at := fore + commands + [matcher], |fore|;
    ForeOf(fore, noEnding, commands + [matcher]);
    assert fore + (commands + [matcher]) == lines;
    CommandLinesOf(fore, commands, matcher);
    FoldedReads(lines, at, |lines| - 1, |lines|, cmd);
    EntryIndents(fore, noEnding, commands, matcher);
    EntryAt(lines, at, cmd);
  }

  lemma EntryAt(lines: seq<Line>, at: nat, cmd: string)
    requires at == NoteLines(lines) + 2 && at + 2 <= |lines| && (at == 3 ==> lines[0].text == NOTE)
    requires lines[at - 2].text == HEADING[0] && lines[at - 1].text == HEADING[1]
    requires forall k :: 0 <= k < |lines| ==> !lines[k].hasTabs && (k >= at - 2 ==> lines[k].indent >= 0)
    requires CommandEnd(lines, at + 1, |lines|) == |lines| - 1 && ItemCommand(lines, at, |lines|) == Some(cmd)
    requires IsOurMatcher(lines[|lines| - 1])
    ensures IsEntry(lines, cmd)
  {
    var n := NoteLines(lines);
    assert n + 2 == at && n + 3 == at + 1;
  }

  lemma ForeOf(fore: seq<Line>, noEnding: bool, rest: seq<Line>)
    requires IsFore(fore, noEnding)
    ensures var lines, n := fore + rest, |fore| - 2;
            && NoteLines(lines) == n && (n == 1 ==> lines[0].text == NOTE)
            && lines[|fore| - 2].text == HEADING[0] && lines[|fore| - 1].text == HEADING[1]
  {
  }

  lemma CommandLinesOf(fore: seq<Line>, commands: seq<Line>, matcher: Line)
    ensures var lines := fore + commands + [matcher];
            lines[|fore|..|lines| - 1] == commands && lines[|lines| - 1] == matcher
  {
  }

  lemma EntryIndents(fore: seq<Line>, noEnding: bool, commands: seq<Line>, matcher: Line)
    requires IsFore(fore, noEnding) && commands != [] && commands[0].indent == 4 && matcher.indent == 6
    requires forall k :: 0 <= k < |commands| ==> !commands[k].hasTabs && (k > 0 ==> IsContinuation(commands[k]))
    requires !matcher.hasTabs
    ensures var lines := fore + commands + [matcher];
            forall k :: 0 <= k < |lines| ==> !lines[k].hasTabs && (k >= |fore| - 2 ==> lines[k].indent >= 0)
  {
    var lines := fore + commands + [matcher];
    forall k | 0 <= k < |lines|
      ensures !lines[k].hasTabs && (k >= |fore| - 2 ==> lines[k].indent >= 0)
    {
      if |fore| <= k < |lines| - 1 {
        assert lines[k] == commands[k - |fore|];
      }
    }
  }

  lemma UnmentionedAppend(a: seq<Line>, b: seq<Line>)
    requires Unmentioned(a) && Unmentioned(b)
    ensures Unmentioned(a + b)
  {
  }

  lemma MiddleLines(commands: seq<string>, noEnding: bool)
    ensures ReadLines(Middle(commands, noEnding)) ==
            ReadLines(Fore(noEnding)) + ReadLines(commands) + [ReadLine(MATCHER_LINE + "\n")]
  {
    LinesAppend(Fore(noEnding) + commands, [MATCHER_LINE + "\n"]);
    LinesAppend(Fore(noEnding), commands);
    TwoRead(MATCHER_LINE + "\n", "");
  }

  lemma MiddleIsEntry(commands: seq<string>, noEnding: bool, cmd: string)
    requires FoldsTo(commands, cmd)
    ensures IsEntry(ReadLines(Middle(commands, noEnding)), cmd)
  {
    ForeReads(noEnding);
    MatcherFixed();
    MatcherIsOurs();
    CommandIndent(ReadLines(commands)[0]);
    EntryOf(ReadLines(Fore(noEnding)), noEnding, ReadLines(commands), ReadLine(MATCHER_LINE + "\n"), cmd);
    MiddleLines(commands, noEnding);
  }

  lemma MiddleUnmentioned(commands: seq<string>, noEnding: bool)
    requires Unmentioned(ReadLines(commands))
    ensures Unmentioned(ReadLines(Middle(commands, noEnding)))
  {
    ForeReads(noEnding);
    MatcherFixed();
    UnmentionedAppend(ReadLines(Fore(noEnding)), ReadLines(commands));
    UnmentionedAppend(ReadLines(Fore(noEnding)) + ReadLines(commands), [ReadLine(MATCHER_LINE + "\n")]);
    MiddleLines(commands, noEnding);
  }

  lemma BlockIsBlock(commands: seq<string>, noEnding: bool, cmd: string)
    requires FoldsTo(commands, cmd)
    ensures IsBlock(ReadLines(Block(commands, noEnding)), cmd)
  {
    var middle, lines := ReadLines(Middle(commands, noEnding)), ReadLines(Block(commands, noEnding));
    BeginFixed();
    EndFixed();
    MiddleIsEntry(commands, noEnding, cmd);
    MiddleUnmentioned(commands, noEnding);
    LinesAppend([BEGIN + "\n"] + Middle(commands, noEnding), [END + "\n"]);
    LinesAppend([BEGIN + "\n"], Middle(commands, noEnding));
    assert lines[1..|lines| - 1] == middle;
  }

  lemma AllEndedAppend(a: seq<string>, b: seq<string>)
    requires AllEnded(a) && AllEnded(b)
    ensures AllEnded(a + b)
  {
  }

  lemma BlockEnded(commands: seq<string>, noEnding: bool)
    requires AllEnded(commands)
    ensures AllEnded(Block(commands, noEnding))
  {
    BeginFixed();
    EndFixed();
    ForeEnded(noEnding);
    MatcherFixed();
    AllEndedAppend(Fore(noEnding), commands);
    AllEndedAppend(Fore(noEnding) + commands, [MATCHER_LINE + "\n"]);
    AllEndedAppend([BEGIN + "\n"], Middle(commands, noEnding));
    AllEndedAppend([BEGIN + "\n"] + Middle(commands, noEnding), [END + "\n"]);
  }

  // ── the lines in front of it are the participant's ──

  lemma {:induction false} LastOfConcat(parts: seq<string>)
    requires parts != [] && parts[|parts| - 1] != ""
    ensures var l := parts[|parts| - 1]; Concat(parts) != "" && Concat(parts)[|Concat(parts)| - 1] == l[|l| - 1]
  {
    if |parts| > 1 {
      LastOfConcat(parts[1..]);
    } else {
      ConcatOne(parts[0]);
      assert parts == [parts[0]];
    }
  }

  lemma SplitEnded(s: string)
    requires s != "" && s[|s| - 1] == '\n'
    ensures AllEnded(SplitLines(s))
  {
    var r := SplitLines(s);
    assert Concat([]) == "";
    LastOfConcat(r);
  }

  lemma {:induction false} PieceOccurs(parts: seq<string>, k: nat, p: string)
    requires k < |parts| && Occurs(parts[k], p)
    ensures Occurs(Concat(parts), p)
  {
    if k == 0 {
      OccursInFront(parts[0], Concat(parts[1..]), p);
    } else {
      PieceOccurs(parts[1..], k - 1, p);
      OccursBehind(parts[0], Concat(parts[1..]), p);
    }
  }

  lemma OccursInText(raw: string, p: string)
    requires Occurs(ReadLine(raw).text, p)
    ensures Occurs(raw, p)
  {
    TrimRightTakes(raw, ENDINGS);
    var text := TrimRight(raw, ENDINGS);
    assert raw == text + raw[|text|..];
    OccursInFront(text, raw[|text|..], p);
  }

  lemma OccursCompleted(existing: string, p: string)
    requires p != "" && '\n' !in p && Occurs(Completed(existing), p)
    ensures Occurs(existing, p)
  {
    if NoEnding(existing) {
      assert Completed(existing) == existing + ['\n'] + "";
      OccursAround(existing, '\n', "", p);
    }
  }

  lemma FrontWithout(existing: string, k: nat, p: string)
    requires k < |Front(existing)| && p != "" && '\n' !in p && !Occurs(existing, p)
    ensures !Occurs(ReadLine(Front(existing)[k]).text, p)
  {
    if Occurs(ReadLine(Front(existing)[k]).text, p) {
      OccursInText(Front(existing)[k], p);
      if k < |Front(existing)| - 1 {
        PieceOccurs(SplitLines(Completed(existing)), k, p);
        OccursCompleted(existing, p);
      } else {
        BlankHas(p);
      }
    }
  }

  lemma BlankHas(p: string)
    requires p != "" && '\n' !in p
    ensures !Occurs("\n", p)
  {
    OccursHas("\n", p, 0);
  }

  lemma MarkersHaveNoFeed()
    ensures BEGIN != "" && '\n' !in BEGIN && END != "" && '\n' !in END
  {
    assert Without(BEGIN, {'\n'});
    assert Without(END, {'\n'});
  }

  lemma FrontUnmentioned(existing: string)
    requires !Mentions(existing)
    ensures Unmentioned(ReadLines(Front(existing)))
  {
    MarkersHaveNoFeed();
    forall k | 0 <= k < |Front(existing)|
      ensures !Mentions(ReadLine(Front(existing)[k]).text)
    {
      FrontWithout(existing, k, BEGIN);
      FrontWithout(existing, k, END);
    }
  }

  lemma FrontEnded(existing: string)
    ensures AllEnded(Front(existing))
  {
    if existing != "" {
      SplitEnded(Completed(existing));
      AllEndedAppend(SplitLines(Completed(existing)), ["\n"]);
    }
  }

  /** Without the carriage return it ends in, if it does. */
  function Uncarried(existing: string): string {
    if NoEnding(existing) then TrimSuffix(existing, "\r") else existing
  }

  lemma SecondLine(commands: seq<string>, noEnding: bool)
    ensures |Block(commands, noEnding)| > 1 && Block(commands, noEnding)[1] == Fore(noEnding)[0]
  {
  }

  lemma NoteFirst(noEnding: bool)
    ensures ReadLine(Fore(noEnding)[0]).text == NOTE <==> noEnding
  {
    hide ReadLine;
    ForeReads(noEnding);
    assert ReadLines(Fore(noEnding))[0] == ReadLine(Fore(noEnding)[0]);
  }

  lemma OwnLines(existing: string)
    ensures Concat(Own(Front(existing))) == Completed(existing)
  {
    hide NoEnding, Completed;
    if existing == "" {
      assert Completed(existing) == "" by {
        EmptyIsComplete();
      }
    } else {
      BlankReads();
      assert (SplitLines(Completed(existing)) + ["\n"])[..|SplitLines(Completed(existing))|] ==
             SplitLines(Completed(existing));
    }
  }

  lemma EmptyIsComplete()
    ensures Completed("") == "" && Concat([]) == ""
  {
  }

  lemma BlankReads()
    ensures ReadLine("\n").text == ""
  {
  }

  lemma FrontLeaves(existing: string, commands: seq<string>)
    ensures Leaves(Front(existing), Block(commands, NoEnding(existing))) == Uncarried(existing)
  {
    hide Front, Block, Fore, ReadLine, Own, SplitLines, WithoutEnding, TrimSuffix;
    SecondLine(commands, NoEnding(existing));
    NoteFirst(NoEnding(existing));
    OwnLines(existing);
    TrimOne(existing);
  }

  lemma TrimOne(existing: string)
    ensures NoEnding(existing) ==> WithoutEnding(Completed(existing)) == TrimSuffix(existing, "\r")
  {
    if NoEnding(existing) {
      var s := existing + "\n";
      assert s[|s| - 1..] == "\n" && s[..|s| - 1] == existing;
    }
  }

  lemma InstalledEndsInBlock(existing: string, commands: seq<string>, cmd: string)
    requires !Mentions(existing) && FoldsTo(commands, cmd)
    ensures Lines(Installed(existing, commands)) == ReadLines(Front(existing) + Block(commands, NoEnding(existing)))
    ensures EndsInBlock(Lines(Installed(existing, commands)), |Front(existing)|, cmd)
  {
    var front, block := Front(existing), Block(commands, NoEnding(existing));
    FrontUnmentioned(existing);
    BlockIsBlock(commands, NoEnding(existing), cmd);
    BlockEnds(ReadLines(front), ReadLines(block), cmd);
    LinesAppend(front, block);
    FrontEnded(existing);
    BlockEnded(commands, NoEnding(existing));
    AllEndedAppend(front, block);
    LinesOfConcat(front + block);
  }

  /** The round trip, folding included: however the command of an appended block has been folded
      since, removal is exact for the installation whose hook it is, and touches nothing for any
      other. Only a bare carriage return at the very end of the file is not given back. */
  lemma FoldedRoundTrip(env: Env, ref: Ref, existing: string, commands: seq<string>, cmd: string)
    requires !Mentions(existing) && FoldsTo(commands, cmd)
    ensures RemoveOurBlock(env, ref, Installed(existing, commands)) ==
            if CommandIsOurHook(env, ref, cmd) then Removed(Uncarried(existing)) else Left(NotOurs)
  {
    InstalledEndsInBlock(existing, commands, cmd);
    BlockAtEnd(env, ref, Installed(existing, commands), Front(existing), Block(commands, NoEnding(existing)), cmd);
    FrontLeaves(existing, commands);
  }

  /** A file has today's command exactly where it has one block and the block reads as that command. */
  lemma CurrentIff(b: string, cmd: string)
    ensures IsCurrent(b, cmd) <==>
            exists begin, end ::
              MarkedAt(Lines(b), begin, end) && ReadBlock(Lines(b)[begin + 1..end]) == Holds(cmd)
  {
    hide ReadBlock, Lines;
  }

  /** And however it is folded, the block still reads as today's command, so it is not written again. */
  lemma FoldedIsCurrent(existing: string, commands: seq<string>, cmd: string)
    requires !Mentions(existing) && FoldsTo(commands, cmd)
    ensures IsCurrent(Installed(existing, commands), cmd)
  {
    InstalledEndsInBlock(existing, commands, cmd);
    CurrentIfEnds(Installed(existing, commands), |Front(existing)|, cmd);
  }

  lemma CurrentIfEnds(b: string, begin: nat, cmd: string)
    requires EndsInBlock(Lines(b), begin, cmd)
    ensures IsCurrent(b, cmd)
  {
    BetweenAt(Lines(b), begin, cmd);
    CurrentFrom(b, begin, |Lines(b)| - 1, cmd);
  }

  lemma CurrentFrom(b: string, begin: nat, end: nat, cmd: string)
    requires Marked(Lines(b)) == Some((begin, end)) && Between(Lines(b), begin, end, cmd)
    ensures IsCurrent(b, cmd)
  {
  }

  lemma BetweenAt(lines: seq<Line>, begin: nat, cmd: string)
    requires EndsInBlock(lines, begin, cmd)
    ensures Marked(lines) == Some((begin, |lines| - 1)) && Between(lines, begin, |lines| - 1, cmd)
  {
  }
}
