/** What taking an unmarked entry out leaves: a run that is ours and nothing else, and no heading
    with nothing under it. */
module HermesEntryLaws {
  import opened Wrappers
  import opened Ownership
  import opened Hermes
  import HermesBlock
  import opened HermesInstall
  import opened HermesEntry

  ghost predicate HoldsOurHook(env: Env, ref: Ref, lines: seq<Line>, at: nat, stop: nat) {
    at < stop <= |lines| && ItemCommand(lines, at, stop).Some? &&
    CommandIsOurHook(env, ref, ItemCommand(lines, at, stop).value)
  }

  /** The command at list depth, what continues it, and its matcher; and above the command as many
      of our two headings as the run reaches back over. */
  ghost predicate IsRun(env: Env, ref: Ref, lines: seq<Line>, start: nat, end: nat, at: nat) {
    && start <= at < end - 1 && end <= |lines| && at - start <= 2
    && (at - start >= 1 ==> lines[at - 1].text == HEADING[1])
    && (at - start == 2 ==> lines[start].text == HEADING[0])
    && lines[at].indent == 4 && (exists stop: nat :: HoldsOurHook(env, ref, lines, at, stop))
    && (forall k :: at < k < end - 1 ==> IsContinuation(lines[k]))
    && IsOurMatcher(lines[end - 1])
  }

  /** No line in between is as shallow as the heading. */
  ghost predicate Covers(lines: seq<Line>, heading: nat, stop: nat) {
    heading < stop <= |lines| &&
    forall j :: heading < j < stop ==> lines[j].indent < 0 || lines[j].indent > lines[heading].indent
  }

  /** The heading has a line of this depth under it. */
  ghost predicate StillHas(lines: seq<Line>, heading: nat, depth: int) {
    exists k :: heading < k < |lines| && lines[k].indent == depth && Covers(lines, heading, k)
  }

  /** A line at the depth of the events is one's key. */
  predicate IsEventKey(l: Line) {
    l.indent == 2 && |l.text| > 2 && TopLevelKey(l.text[2..]).Some?
  }

  /** Everything under the heading at that depth is a key. */
  ghost predicate KeysUnder(lines: seq<Line>, heading: nat) {
    forall k :: heading < k < |lines| && lines[k].indent == 2 && Covers(lines, heading, k) ==> IsEventKey(lines[k])
  }

  ghost predicate StillHasKey(lines: seq<Line>, heading: nat) {
    exists k :: heading < k < |lines| && IsEventKey(lines[k]) && Covers(lines, heading, k)
  }

  ghost predicate StillHasItem(lines: seq<Line>, heading: nat) {
    exists k :: heading < k < |lines| && lines[k].indent == 4 && |lines[k].text| > 4 && Covers(lines, heading, k) &&
      (lines[k].text[4..] == "-" || "- " <= lines[k].text[4..])
  }

  /** The file without the run. */
  function Rest(lines: seq<Line>, start: nat, end: nat): seq<Line>
    requires start <= end <= |lines|
  {
    lines[..start] + lines[end..]
  }

  lemma RestAt(lines: seq<Line>, start: nat, end: nat, k: nat)
    requires start <= end <= |lines| && k < |lines| && !(start <= k < end)
    ensures var m := if k < start then k else k - (end - start);
            m < |Rest(lines, start, end)| && Rest(lines, start, end)[m] == lines[k]
  {
  }

  lemma StillCovers(lines: seq<Line>, start: nat, end: nat, heading: nat, k: nat)
    requires heading < start < end <= |lines| && !(start <= k < end) && Covers(lines, heading, k)
    ensures Covers(Rest(lines, start, end), heading, if k < start then k else k - (end - start))
  {
    var rest, m := Rest(lines, start, end), if k < start then k else k - (end - start);
    forall j | heading < j < m
      ensures rest[j].indent < 0 || rest[j].indent > rest[heading].indent
    {
      assert rest[j] == lines[if j < start then j else j + (end - start)];
    }
  }

  lemma OtherSurvives(lines: seq<Line>, start: nat, end: nat, heading: nat, stop: nat, depth: int)
    requires heading < start < end <= stop <= |lines|
    requires HasOther(lines, heading + 1, stop, start, end, depth) && Covers(lines, heading, stop)
    ensures StillHas(Rest(lines, start, end), heading, depth)
    ensures depth == 2 && KeysUnder(lines, heading) ==> StillHasKey(Rest(lines, start, end), heading)
  {
    hide IsEventKey;
    var k :| heading + 1 <= k < stop && !(start <= k < end) && lines[k].indent == depth;
    RestAt(lines, start, end, k);
    assert Covers(lines, heading, k);
    StillCovers(lines, start, end, heading, k);
  }

  lemma ItemSurvives(lines: seq<Line>, start: nat, end: nat, heading: nat, stop: nat)
    requires heading < start < end <= stop <= |lines|
    requires HasOther(lines, heading + 1, stop, start, end, 4) && Covers(lines, heading, stop)
    requires forall k :: heading < k < stop ==> !IsNoItem(lines[k])
    ensures StillHasItem(Rest(lines, start, end), heading)
  {
    var k :| heading + 1 <= k < stop && !(start <= k < end) && lines[k].indent == 4;
    RestAt(lines, start, end, k);
    assert !IsNoItem(lines[k]) && Covers(lines, heading, k);
    StillCovers(lines, start, end, heading, k);
  }

  /** Everything the removal of an unmarked entry promises about the lines that stay. */
  ghost predicate LeavesWhole(env: Env, ref: Ref, lines: seq<Line>, at: nat, start: nat, end: nat) {
    && IsRun(env, ref, lines, start, end, at)
    && EndsWhatItBegan(lines, start, end)
    && (start == at ==> exists parent: nat ::
          parent < start && lines[parent].text == HEADING[1] && StillHasItem(Rest(lines, start, end), parent))
    && (start == at - 1 ==> exists top: nat ::
          && top < start && lines[top].text == HEADING[0] && StillHas(Rest(lines, start, end), top, 2)
          && (KeysUnder(lines, top) ==> StillHasKey(Rest(lines, start, end), top)))
  }

  /** The scan's facts about the block around our entry. */
  ghost predicate InBlock(lines: seq<Line>, top: nat, parent: nat, at: nat, end: nat, listEnd: nat, blockEnd: nat) {
    && top < parent < at < end <= listEnd <= blockEnd <= |lines|
    && lines[top].text == HEADING[0] && lines[top].indent == 0 && Covers(lines, top, blockEnd)
    && lines[parent].text == HEADING[1] && lines[parent].indent == 2 && Covers(lines, parent, listEnd)
    && (forall k :: parent < k < listEnd ==> !IsNoItem(lines[k]))
  }

  lemma RunStartLeaves(lines: seq<Line>, top: nat, parent: nat, at: nat, end: nat, listEnd: nat, blockEnd: nat)
    requires InBlock(lines, top, parent, at, end, listEnd, blockEnd)
    ensures var r := RunStart(lines, top, parent, at, end, listEnd, blockEnd);
            r.Removable? ==>
              && r.at == at && r.end == end && r.start <= at && at - r.start <= 2
              && (at - r.start >= 1 ==> lines[at - 1].text == HEADING[1])
              && (at - r.start == 2 ==> lines[r.start].text == HEADING[0])
              && (r.start == at ==> StillHasItem(Rest(lines, at, end), parent))
              && (r.start == at - 1 ==> StillHas(Rest(lines, at - 1, end), top, 2))
              && (r.start == at - 1 && KeysUnder(lines, top) ==> StillHasKey(Rest(lines, at - 1, end), top))
  {
    if HasOther(lines, parent + 1, listEnd, at, end, 4) {
      ItemSurvives(lines, at, end, parent, listEnd);
    } else if parent == at - 1 && HasOther(lines, top + 1, blockEnd, parent, end, 2) {
      OtherSurvives(lines, parent, end, top, blockEnd, 2);
    }
  }

  lemma EventIndent(l: Line)
    requires l == ReadLine(l.raw) && l.text == HEADING[1]
    ensures l.indent == 2
  {
    assert HEADING[1] == "  " + EVENT;
    HermesBlock.Indented(l, "  ", EVENT);
  }

  lemma SpanIsEntry(lines: seq<Line>, at: nat, listEnd: nat, end: nat)
    requires at < listEnd <= |lines| && EntrySpan(lines, at, listEnd) == Some(end)
    ensures at < end - 1 && end <= listEnd && IsOurMatcher(lines[end - 1])
    ensures forall k :: at < k < end - 1 ==> IsContinuation(lines[k])
  {
    hide IsOurMatcher;
  }

  lemma BlockIs(keyValue: string -> bool, lines: seq<Line>, top: nat, parent: nat, at: nat, end: nat, blockEnd: nat)
    requires top < parent && at < blockEnd <= |lines| && StandsUnder(lines, parent, at)
    requires at < end <= First(lines, parent + 1, blockEnd, IsOutsideList)
    requires forall k :: 0 <= k < |lines| ==> lines[k] == ReadLine(lines[k].raw)
    requires blockEnd == First(lines, top + 1, |lines|, IsTopLine) && IsHooksLine(lines[top])
    requires lines[parent].text == HEADING[1]
    requires BlockReadable(keyValue, lines, top, parent, at, First(lines, parent + 1, blockEnd, IsOutsideList),
               blockEnd)
    ensures InBlock(lines, top, parent, at, end, First(lines, parent + 1, blockEnd, IsOutsideList), blockEnd)
  {
    EventIndent(lines[parent]);
    forall j | top < j < blockEnd
      ensures lines[j].indent < 0 || lines[j].indent > 0
    {
      assert !IsTopLine(lines[j]);
    }
    forall j | parent < j < First(lines, parent + 1, blockEnd, IsOutsideList)
      ensures lines[j].indent < 0 || lines[j].indent > 2
    {
      assert !IsOutsideList(lines[j]);
    }
  }

  lemma DecideLeaves(env: Env, ref: Ref, lines: seq<Line>, top: nat, parent: nat, at: nat, end: nat, listEnd: nat,
                     blockEnd: nat, more: bool)
    requires InBlock(lines, top, parent, at, end, listEnd, blockEnd)
    requires HoldsOurHook(env, ref, lines, at, blockEnd) && lines[at].indent == 4
    requires EntrySpan(lines, at, listEnd) == Some(end)
    ensures var r := Decide(env, ref, lines, top, parent, at, listEnd, blockEnd, more);
            r.Removable? ==> r.start <= r.end <= |lines| && LeavesWhole(env, ref, lines, at, r.start, r.end)
  {
    hide HoldsOurHook, IsOurMatcher, EntryLinesAreOurs;
    SpanIsEntry(lines, at, listEnd, end);
    RunStartLeaves(lines, top, parent, at, end, listEnd, blockEnd);
  }

  lemma FindInLeaves(env: Env, keyValue: string -> bool, ref: Ref, lines: seq<Line>, top: nat, parent: nat, at: nat,
                     blockEnd: nat, more: bool)
    requires top < parent && at < blockEnd <= |lines| && StandsUnder(lines, parent, at)
    requires forall k :: 0 <= k < |lines| ==> lines[k] == ReadLine(lines[k].raw)
    requires blockEnd == First(lines, top + 1, |lines|, IsTopLine) && IsHooksLine(lines[top])
    requires lines[parent].text == HEADING[1] && HoldsOurHook(env, ref, lines, at, blockEnd)
    ensures var r := FindIn(env, keyValue, ref, lines, top, parent, at, blockEnd, more);
            r.Removable? ==> r.start <= r.end <= |lines| && LeavesWhole(env, ref, lines, at, r.start, r.end)
  {
    hide HoldsOurHook, ReadLine, LeavesWhole;
    ListReaches(lines, parent, at, blockEnd);
    var listEnd := First(lines, parent + 1, blockEnd, IsOutsideList);
    var span := EntrySpan(lines, at, listEnd);
    if BlockReadable(keyValue, lines, top, parent, at, listEnd, blockEnd) && span.Some? {
      SpanIsEntry(lines, at, listEnd, span.value);
      BlockIs(keyValue, lines, top, parent, at, span.value, blockEnd);
      DecideLeaves(env, ref, lines, top, parent, at, span.value, listEnd, blockEnd, more);
    }
  }

  lemma FindUnderLeaves(env: Env, keyValue: string -> bool, ref: Ref, lines: seq<Line>, top: nat)
    requires top < |lines| && IsHooksLine(lines[top])
    requires forall k :: 0 <= k < |lines| ==> lines[k] == ReadLine(lines[k].raw)
    ensures var r := FindUnder(env, keyValue, ref, lines, top);
            r.Removable? ==> r.start <= r.end <= |lines| && LeavesWhole(env, ref, lines, r.at, r.start, r.end)
  {
    hide ReadLine, LeavesWhole, FindIn, CommandIsOurHook, ItemCommand;
    var blockEnd := First(lines, top + 1, |lines|, IsTopLine);
    var at := FirstOurs(env, ref, lines, top + 1, top, blockEnd);
    if at < blockEnd {
      var more := FirstOurs(env, ref, lines, at + 1, top, blockEnd) < blockEnd;
      var parent := ParentOf(env, ref, lines, at, top, blockEnd);
      FindInLeaves(env, keyValue, ref, lines, top, parent, at, blockEnd, more);
      FindInNames(env, keyValue, ref, lines, top, parent, at, blockEnd, more);
    }
  }

  lemma FindInNames(env: Env, keyValue: string -> bool, ref: Ref, lines: seq<Line>, top: nat, parent: nat, at: nat,
                    blockEnd: nat, more: bool)
    requires top < parent && at < blockEnd <= |lines| && StandsUnder(lines, parent, at)
    ensures var r := FindIn(env, keyValue, ref, lines, top, parent, at, blockEnd, more);
            r.Removable? ==> r.at == at
  {
    hide BlockReadable, RunIsOurs, EntrySpan;
  }

  /** In any file: the run that is taken out is our entry with at most the headings it leaves
      empty; nothing after it was deeper than its first line; a pre_tool_call: that stays still
      has a list item; a hooks: that stays still has a line of its own at the depth of the events,
      which is a key if every such line was one; and every other line stays as it was read. */
  lemma EntryRemovalLeavesWhole(env: Env, keyValue: string -> bool, ref: Ref, b: string)
    requires FindStructured(env, keyValue, ref, b).Removable?
    ensures var lines, r := Lines(b), FindStructured(env, keyValue, ref, b);
            && r.start <= r.end <= |lines|
            && LeavesWhole(env, ref, lines, r.at, r.start, r.end)
            && b == Bytes(lines[..r.start]) + Bytes(lines[r.start..r.end]) + Bytes(lines[r.end..])
            && RemoveOwnEntry(b, r.start, r.end) == Bytes(lines[..r.start]) + Bytes(lines[r.end..])
  {
    hide LeavesWhole, FindUnder;
    var lines, r := Lines(b), FindStructured(env, keyValue, ref, b);
    var top := First(lines, 0, |lines|, IsHooksLine);
    FindUnderLeaves(env, keyValue, ref, lines, top);
    BytesSplit(b, r.start, r.end);
    BytesAppend(lines[..r.start], lines[r.end..]);
  }
}
