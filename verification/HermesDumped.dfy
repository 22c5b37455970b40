/** The entry as Hermes writes its configuration out again: markers gone, plain or quoted, folded
    anywhere, alone or among other entries. It is found, and what is taken out is told. */
module HermesDumped {
  import opened Wrappers
  import opened Text
  import opened Ownership
  import opened Hermes
  import opened HermesBlock
  import opened HermesEntry
  import opened HermesScan

  /** One past the last line under the hooks: line. */
  function BlockEnd(lines: seq<Line>, top: nat): (n: nat)
    requires top < |lines|
    ensures top < n <= |lines| && (n < |lines| ==> lines[n].indent == 0)
    ensures forall k :: top < k < n ==> lines[k].indent != 0
  {
    First(lines, top + 1, |lines|, IsTopLine)
  }

  /** One past the last line under the pre_tool_call: line. */
  function ListEnd(lines: seq<Line>, top: nat, parent: nat): (n: nat)
    requires top < |lines| && parent < BlockEnd(lines, top)
    ensures parent < n <= BlockEnd(lines, top) && (n < BlockEnd(lines, top) ==> 0 <= lines[n].indent <= 2)
    ensures forall k :: parent < k < n ==> lines[k].indent < 0 || lines[k].indent > 2
  {
    First(lines, parent + 1, BlockEnd(lines, top), IsOutsideList)
  }

  /** At the depth of the events, a key that is pre_tool_call in any case. */
  predicate OpensEvent(l: Line) {
    l.indent == 2 && |l.text| > 2 && var k := TopLevelKey(l.text[2..]); k.Some? && EqualFold(k.value, "pre_tool_call")
  }

  lemma SameEvents()
    ensures forall l :: IsEvent(l) <==> OpensEvent(l)
    ensures forall l :: IsOddDepth(l) <==> l.indent in {1, 3}
  {
    hide TopLevelKey, EqualFold;
  }

  /** A blank, a comment, a line inside an item, or a dash at the items' depth. */
  ghost predicate OnlyItems(lines: seq<Line>, parent: nat, end: nat)
    requires end <= |lines|
  {
    forall k :: parent < k < end ==>
      || lines[k].indent < 0 || lines[k].indent > 4
      || (lines[k].indent == 4 && (lines[k].text == "    -" || "    - " <= lines[k].text))
  }

  /** Our two headings, the second the only one of its kind among whatever events there are, and under
      it nothing but list items. */
  ghost predicate IsList(lines: seq<Line>, top: nat, parent: nat) {
    && top < parent < |lines| && parent < BlockEnd(lines, top)
    && lines[top].text == HEADING[0] && lines[top].indent == 0
    && lines[parent].text == HEADING[1] && lines[parent].indent == 2
    && (forall k :: top < k < BlockEnd(lines, top) ==>
          lines[k].indent !in {1, 3} && (k != parent ==> !OpensEvent(lines[k])))
    && OnlyItems(lines, parent, ListEnd(lines, top, parent))
  }

  /** The item at `at` is our command, on one line or more and in either style, and our matcher. */
  ghost predicate IsOurs(env: Env, ref: Ref, lines: seq<Line>, at: nat, end: nat, cmd: string) {
    && at + 2 <= end <= |lines| && lines[at].indent == 4
    && FoldedCommand(lines[at..end - 1], cmd) && CommandIsOurHook(env, ref, cmd) && IsOurMatcher(lines[end - 1])
  }

  /** No other item of the list runs this installation's hook. */
  ghost predicate OnlyOne(env: Env, ref: Ref, lines: seq<Line>, top: nat, parent: nat, at: nat)
    requires top < |lines| && parent < BlockEnd(lines, top)
  {
    forall k :: parent < k < ListEnd(lines, top, parent) && k != at && lines[k].indent == 4 ==>
      var c := ItemCommand(lines, k, BlockEnd(lines, top)); c.None? || !CommandIsOurHook(env, ref, c.value)
  }

  /** The entry in its list; the next line with content is no part of it. */
  ghost predicate Dumped(env: Env, ref: Ref, lines: seq<Line>, top: nat, parent: nat, at: nat, end: nat, cmd: string) {
    && IsList(lines, top, parent) && IsOurs(env, ref, lines, at, end, cmd)
    && parent < at && end <= ListEnd(lines, top, parent) && OnlyOne(env, ref, lines, top, parent, at)
    && (var next := NextContent(lines, end); next < |lines| ==> lines[next].indent <= 4)
  }

  /** The file around it: a plain mapping with one hooks key, no marker text and no tabs, and no other
      line that reads as the hooks: line before it. */
  ghost predicate Around(b: string, top: nat) {
    && !Mentions(b) && PlainMapping(SplitLines(b)) && |HooksKeys(SplitLines(b))| == 1
    && (forall k :: 0 <= k < |Lines(b)| ==> !Lines(b)[k].hasTabs)
    && (forall k :: 0 <= k < top && k < |Lines(b)| ==> !IsHooksLine(Lines(b)[k]))
  }

  /** Whether the list has another item. */
  predicate Others(lines: seq<Line>, top: nat, parent: nat, at: nat, end: nat)
    requires top < |lines| && parent < BlockEnd(lines, top)
  {
    exists k :: parent < k < ListEnd(lines, top, parent) && !(at <= k < end) && lines[k].indent == 4
  }

  /** Whether there is another event under hooks:. */
  predicate OtherEvents(lines: seq<Line>, top: nat, parent: nat, end: nat)
    requires top < |lines|
  {
    exists k :: top < k < BlockEnd(lines, top) && !(parent <= k < end) && lines[k].indent == 2
  }

  /** Among other items the item goes alone; by itself it takes its heading with it, and the last event
      the one above as well; but only a heading it stands directly under. */
  function Outcome(lines: seq<Line>, top: nat, parent: nat, at: nat, end: nat): Own
    requires top < |lines| && parent < BlockEnd(lines, top)
  {
    if Others(lines, top, parent, at, end) then Removable(at, at, end)
    else if at != parent + 1 then Found(at, ApartFromEvent)
    else if OtherEvents(lines, top, parent, end) then Removable(at, parent, end)
    else if parent != top + 1 then Found(at, ApartFromHooks)
    else Removable(at, top, end)
  }

  lemma {:induction false} FirstIs(lines: seq<Line>, i: nat, n: nat, end: nat, p: Line -> bool)
    requires i <= n <= end <= |lines| && (n < end ==> p(lines[n])) && forall k :: i <= k < n ==> !p(lines[k])
    ensures First(lines, i, end, p) == n
    decreases n - i
  {
    if i < n {
      FirstIs(lines, i + 1, n, end, p);
    }
  }

  lemma {:induction false} FirstPlaceIs(i: nat, n: nat, end: nat, p: nat -> bool)
    requires i <= n <= end && (n < end ==> p(n)) && forall k: nat :: i <= k < n ==> !p(k)
    ensures FirstPlace(i, end, p) == n
    decreases n - i
  {
    if i < n {
      FirstPlaceIs(i + 1, n, end, p);
    }
  }

  lemma {:induction false} OneEvent(lines: seq<Line>, i: nat, parent: nat, end: nat)
    requires i <= end <= |lines| && (i <= parent < end ==> IsEvent(lines[parent]))
    requires forall k :: i <= k < end && k != parent ==> !IsEvent(lines[k])
    ensures Events(lines, i, end) == if i <= parent < end then 1 else 0
    decreases end - i
  {
    hide IsEvent;
    if i < end {
      OneEvent(lines, i + 1, parent, end);
    }
  }

  /** Past the matcher there is nothing more of the entry. */
  lemma {:induction false} NothingReadable(keyValue: string -> bool, lines: seq<Line>, k: nat, end: nat, underKey: bool)
    requires k <= end <= |lines| && (NextContent(lines, k) < end ==> lines[NextContent(lines, k)].indent <= 4)
    ensures ReadableFrom(keyValue, lines, k, end, underKey)
    decreases end - k
  {
    if k < end && lines[k].indent < 0 {
      NothingReadable(keyValue, lines, k + 1, end, underKey);
    }
  }

  const EVENT_KEY := "pre_tool_call"

  lemma EventKey()
    ensures TopLevelKey(EVENT) == Some(EVENT_KEY)
  {
    hide TopLevelKey;
    PlainEvent();
    assert EVENT == EVENT_KEY + ":" && EVENT[|EVENT_KEY|..] == ":" == "" + ":" + "";
    PlainTaken(EVENT, EVENT_KEY, "", "");
  }

  lemma PlainEvent()
    ensures ':' !in EVENT_KEY && !AnyOf(EVENT_KEY, NOT_IN_KEYS)
    ensures EVENT_KEY[0] != SINGLE && EVENT_KEY[0] != DOUBLE && EVENT_KEY[|EVENT_KEY| - 1] !in BLANKS
  {
    forall k | 0 <= k < |EVENT_KEY|
      ensures EVENT_KEY[k] !in NOT_IN_KEYS && EVENT_KEY[k] != ':'
    {
      WordIsPlain(EVENT_KEY[k]);
    }
  }

  lemma WordIsPlain(c: char)
    requires 'a' <= c <= 'z' || c == '_'
    ensures c !in NOT_IN_KEYS && c != ':'
  {
  }

  lemma EventIsEvent(l: Line)
    requires l.text == HEADING[1] && l.indent == 2
    ensures IsEvent(l)
  {
    EventKey();
    assert HEADING[1][2..] == EVENT;
  }

  /** The command reads back, however far one reads. */
  lemma Reads(env: Env, ref: Ref, lines: seq<Line>, at: nat, end: nat, cmd: string, stop: nat)
    requires IsOurs(env, ref, lines, at, end, cmd) && end <= stop <= |lines|
    ensures ItemCommand(lines, at, stop) == Some(cmd) && CommandEnd(lines, at + 1, stop) == end - 1
    ensures EntrySpan(lines, at, stop) == Some(end)
  {
    hide CommandIsOurHook, IsOurMatcher, FoldedCommand, ItemCommand;
    MatcherDepth(lines[end - 1]);
    FoldedReads(lines, at, end - 1, stop, cmd);
  }

  lemma MatcherDepth(l: Line)
    requires IsOurMatcher(l)
    ensures !IsContinuation(l) && l.indent == 6 && |l.text| >= 6
  {
  }

  lemma FirstLine(lines: seq<Line>, at: nat, end: nat, cmd: string)
    requires at + 2 <= end <= |lines| && FoldedCommand(lines[at..end - 1], cmd)
    ensures COMMAND_PREFIX <= lines[at].text
    ensures forall k :: at < k < end - 1 ==> lines[k].indent > 6
  {
    var f := lines[at..end - 1];
    assert f[0] == lines[at];
    forall k | at < k < end - 1
      ensures lines[k].indent > 6
    {
      assert lines[k] == f[k - at];
    }
  }

  lemma ItemText(l: Line)
    requires l.indent == 4 && (l.text == "    -" || "    - " <= l.text)
    ensures IsItem(l)
  {
    var t := l.text;
    assert "    - "[4..] == "- " && "    -"[4..] == "-";
    assert "    - " <= t ==> t[4..6] == "    - "[4..6];
  }

  lemma ItemsAreItems(lines: seq<Line>, parent: nat, end: nat)
    requires end <= |lines| && OnlyItems(lines, parent, end)
    ensures forall k :: parent < k < end ==> !IsNoItem(lines[k])
  {
    hide IsItem;
    forall k | parent < k < end
      ensures !IsNoItem(lines[k])
    {
      if lines[k].indent == 4 {
        ItemText(lines[k]);
      }
    }
  }

  lemma ListIsBlock(lines: seq<Line>, top: nat, parent: nat)
    requires IsList(lines, top, parent)
    ensures var blockEnd, listEnd := BlockEnd(lines, top), ListEnd(lines, top, parent);
            && First(lines, parent + 1, listEnd, IsNoItem) == listEnd
            && First(lines, top + 1, blockEnd, IsOddDepth) == blockEnd
            && Events(lines, top + 1, blockEnd) == 1
  {
    hide IsItem, IsEvent, First, OnlyItems, OpensEvent, IsOddDepth;
    SameEvents();
    ItemsAreItems(lines, parent, ListEnd(lines, top, parent));
    var blockEnd, listEnd := BlockEnd(lines, top), ListEnd(lines, top, parent);
    FirstIs(lines, parent + 1, listEnd, listEnd, IsNoItem);
    FirstIs(lines, top + 1, blockEnd, blockEnd, IsOddDepth);
    EventIsEvent(lines[parent]);
    OneEvent(lines, top + 1, parent, blockEnd);
  }

  lemma {:induction false} ParentIs(lines: seq<Line>, top: nat, parent: nat, i: nat)
    requires IsList(lines, top, parent) && parent < i <= ListEnd(lines, top, parent)
    ensures Above(lines, i, top, IsOutsideEntry) == Some(parent)
    decreases i
  {
    hide IsItem, First, IsEvent;
    if i > parent + 1 {
      ParentIs(lines, top, parent, i - 1);
    }
  }

  /** An item under the heading of our list is in the list. */
  lemma OnlyHere(lines: seq<Line>, top: nat, parent: nat, k: nat)
    requires IsList(lines, top, parent) && top < k < BlockEnd(lines, top) && lines[k].indent == 4
    requires var p := Above(lines, k, top, IsOutsideEntry); p.Some? && lines[p.value].text == HEADING[1]
    ensures parent < k < ListEnd(lines, top, parent)
  {
    hide IsItem, IsEvent, Above, First, OnlyItems, OpensEvent;
    SameEvents();
    var p := Above(lines, k, top, IsOutsideEntry).value;
    assert !IsTopLine(lines[p]) && !IsOddDepth(lines[p]);
    EventIsEvent(lines[p]);
    ListReaches(lines, parent, k, BlockEnd(lines, top));
  }

  lemma OnlyOurs(env: Env, ref: Ref, lines: seq<Line>, top: nat, parent: nat, at: nat, end: nat, cmd: string)
    requires Dumped(env, ref, lines, top, parent, at, end, cmd)
    ensures var blockEnd := BlockEnd(lines, top);
            && FirstOurs(env, ref, lines, top + 1, top, blockEnd) == at
            && FirstOurs(env, ref, lines, at + 1, top, blockEnd) == blockEnd
            && Above(lines, at, top, IsOutsideEntry) == Some(parent)
  {
    hide CommandIsOurHook, IsOurMatcher, FoldedCommand, ItemCommand, First, IsItem, IsEvent, Above;
    var blockEnd := BlockEnd(lines, top);
    Reads(env, ref, lines, at, end, cmd, blockEnd);
    ParentIs(lines, top, parent, at);
    HereIsOurs(env, ref, lines, top, parent, at, end, cmd);
    forall k: nat | top < k < blockEnd && k != at
      ensures !EntryIsOurs(env, ref, lines, k, top, blockEnd)
    {
      if EntryIsOurs(env, ref, lines, k, top, blockEnd) {
        OnlyHere(lines, top, parent, k);
      }
    }
    FirstPlaceIs(top + 1, at, blockEnd, OursAt(env, ref, lines, top, blockEnd));
    FirstPlaceIs(at + 1, blockEnd, blockEnd, OursAt(env, ref, lines, top, blockEnd));
  }

  lemma HereIsOurs(env: Env, ref: Ref, lines: seq<Line>, top: nat, parent: nat, at: nat, end: nat, cmd: string)
    requires Dumped(env, ref, lines, top, parent, at, end, cmd)
    requires ItemCommand(lines, at, BlockEnd(lines, top)) == Some(cmd)
    requires Above(lines, at, top, IsOutsideEntry) == Some(parent)
    ensures EntryIsOurs(env, ref, lines, at, top, BlockEnd(lines, top))
  {
    hide CommandIsOurHook, IsOurMatcher, FoldedCommand, ItemCommand, First, IsItem, IsEvent, Above;
    forall k | top < k < parent
      ensures lines[k].indent < 0 || lines[k].indent >= 2
    {
      assert !IsTopLine(lines[k]) && !IsOddDepth(lines[k]);
    }
  }

  lemma MatcherReads(keyValue: string -> bool, lines: seq<Line>, k: nat, end: nat)
    requires k < end <= |lines| && lines[k].indent == 6 && |lines[k].text| >= 6 && keyValue(lines[k].text[6..])
    requires NextContent(lines, k + 1) < end ==> lines[NextContent(lines, k + 1)].indent <= 4
    ensures ReadableFrom(keyValue, lines, k, end, false)
  {
    hide NextContent;
    NothingReadable(keyValue, lines, k + 1, end, true);
  }

  lemma IsReadable(env: Env, keyValue: string -> bool, ref: Ref, lines: seq<Line>, top: nat, parent: nat, at: nat,
      end: nat, cmd: string)
    requires Dumped(env, ref, lines, top, parent, at, end, cmd) && keyValue(lines[end - 1].text[6..])
    ensures BlockReadable(keyValue, lines, top, parent, at, ListEnd(lines, top, parent), BlockEnd(lines, top))
  {
    hide CommandIsOurHook, ItemCommand, Events, First, FoldedCommand, EntrySpan, CommandEnd, ReadableFrom, NextContent,
         IsOurMatcher, IsEvent;
    var listEnd := ListEnd(lines, top, parent);
    Reads(env, ref, lines, at, end, cmd, listEnd);
    ListIsBlock(lines, top, parent);
    MatcherDepth(lines[end - 1]);
    MatcherReads(keyValue, lines, end - 1, listEnd);
  }

  lemma ScalarStarts(p: string, rest: string, cmd: string)
    requires Trimmed(p) && Scalar(p + rest, cmd)
    ensures var v := TrimSpace(p); v != "" && v[0] != DOUBLE
  {
    hide DecodeScalar, TrimSpace;
    TrimmedStays(p);
    assert p != "" ==> p[0] == (p + rest)[0];
  }

  /** The lines above the list's heading are as deep as it is, up to the other one. */
  lemma {:induction false} HeadedAbove(lines: seq<Line>, top: nat, parent: nat, i: nat)
    requires IsList(lines, top, parent) && top < i <= parent
    ensures HeadedByOurs(lines, i, 2)
    decreases i
  {
    hide IsItem, First, IsEvent;
    if i > top + 1 {
      assert !IsTopLine(lines[i - 1]) && !IsOddDepth(lines[i - 1]);
      HeadedAbove(lines, top, parent, i - 1);
    }
  }

  /** The lines above an item, up to its heading, are deeper than it is. */
  lemma {:induction false} HeadedBelow(lines: seq<Line>, top: nat, parent: nat, i: nat)
    requires IsList(lines, top, parent) && parent < i <= ListEnd(lines, top, parent)
    ensures HeadedByOurs(lines, i, 4)
    decreases i
  {
    hide IsItem, First, IsEvent;
    if i > parent + 1 {
      HeadedBelow(lines, top, parent, i - 1);
    } else {
      HeadedAbove(lines, top, parent, parent);
    }
  }

  /** With no other item, what comes next is an event, or back at the top level; and with no other event
      either, only that. */
  lemma NothingElse(env: Env, ref: Ref, lines: seq<Line>, top: nat, parent: nat, at: nat, end: nat, cmd: string)
    requires Dumped(env, ref, lines, top, parent, at, end, cmd) && !Others(lines, top, parent, at, end)
    ensures var next := NextContent(lines, end); next < |lines| ==>
              lines[next].indent <= 2 && (!OtherEvents(lines, top, parent, end) ==> lines[next].indent == 0)
  {
    hide CommandIsOurHook, IsOurMatcher, FoldedCommand, ItemCommand, IsItem, IsEvent, NextContent, First;
    var next, listEnd, blockEnd := NextContent(lines, end), ListEnd(lines, top, parent), BlockEnd(lines, top);
    if blockEnd < |lines| {
      TopAt(lines, top);
    }
    if listEnd < blockEnd {
      EventAt(lines, top, parent);
    }
    if listEnd < |lines| {
      NextAtMost(lines, end, listEnd);
    }
  }

  lemma EventAt(lines: seq<Line>, top: nat, parent: nat)
    requires IsList(lines, top, parent) && ListEnd(lines, top, parent) < BlockEnd(lines, top)
    ensures lines[ListEnd(lines, top, parent)].indent == 2
  {
    hide IsItem, IsEvent;
    var l := lines[ListEnd(lines, top, parent)];
    assert IsOutsideList(l) && !IsTopLine(l) && !IsOddDepth(l);
  }

  lemma TopAt(lines: seq<Line>, top: nat)
    requires top < |lines| && BlockEnd(lines, top) < |lines|
    ensures lines[BlockEnd(lines, top)].indent == 0
  {
  }

  lemma {:induction false} NextAtMost(lines: seq<Line>, i: nat, n: nat)
    requires i <= n <= |lines| && (n < |lines| ==> lines[n].indent >= 0)
    ensures NextContent(lines, i) <= n
    decreases n - i
  {
    if i < n && lines[i].indent < 0 {
      NextAtMost(lines, i + 1, n);
    }
  }

  /** The heading goes only directly above the entry, with nothing else under it. */
  ghost predicate Reaches(lines: seq<Line>, top: nat, parent: nat, at: nat, end: nat, start: nat)
    requires top < |lines| && parent < BlockEnd(lines, top)
  {
    || start == at
    || (start == parent && at == parent + 1 && !Others(lines, top, parent, at, end))
    || (start == top && parent == top + 1 && at == parent + 1 && !Others(lines, top, parent, at, end) &&
         !OtherEvents(lines, top, parent, end))
  }

  lemma RunIsExact(env: Env, ref: Ref, lines: seq<Line>, top: nat, parent: nat, at: nat, end: nat, cmd: string,
      start: nat)
    requires Dumped(env, ref, lines, top, parent, at, end, cmd) && Reaches(lines, top, parent, at, end, start)
    ensures RunIsOurs(env, ref, lines, start, end, at)
  {
    hide CommandIsOurHook, ItemCommand, IsOurMatcher, RenderedExactly, TrimSpace, DecodeScalar, EntrySpan, First,
         IsItem, IsEvent, HeadedByOurs, NextContent, Others, OtherEvents;
    Reads(env, ref, lines, at, end, cmd, |lines|);
    FirstLine(lines, at, end, cmd);
    var f := lines[at..end - 1];
    assert f[0] == lines[at];
    ScalarStarts(f[0].text[|COMMAND_PREFIX|..], Spaced(Pieces(f[1..])), cmd);
    if start == at {
      HeadedBelow(lines, top, parent, at);
      assert HEADING[2..] == [] && lines[at..at] == [];
    } else {
      NothingElse(env, ref, lines, top, parent, at, end, cmd);
      if start == parent {
        HeadedAbove(lines, top, parent, parent);
        assert HEADING[1..] == [HEADING[1]] && lines[parent..at] == [lines[parent]];
      } else {
        AtTheTop(lines, top);
        assert HEADING[0..] == HEADING;
      }
    }
  }

  lemma AtTheTop(lines: seq<Line>, i: nat)
    requires i <= |lines|
    ensures HeadedByOurs(lines, i, 0)
  {
  }

  lemma Started(lines: seq<Line>, top: nat, parent: nat, at: nat, end: nat)
    requires IsList(lines, top, parent) && parent < at < end <= ListEnd(lines, top, parent)
    ensures RunStart(lines, top, parent, at, end, ListEnd(lines, top, parent), BlockEnd(lines, top)) ==
            Outcome(lines, top, parent, at, end)
    ensures Outcome(lines, top, parent, at, end).Removable? ==>
              Reaches(lines, top, parent, at, end, Outcome(lines, top, parent, at, end).start)
  {
    hide IsItem, First, IsEvent;
  }

  lemma Decides(env: Env, ref: Ref, lines: seq<Line>, top: nat, parent: nat, at: nat, end: nat, cmd: string)
    requires Dumped(env, ref, lines, top, parent, at, end, cmd)
    ensures Decide(env, ref, lines, top, parent, at, ListEnd(lines, top, parent), BlockEnd(lines, top), false) ==
            Outcome(lines, top, parent, at, end)
  {
    hide CommandIsOurHook, ItemCommand, IsOurMatcher, RunIsOurs, FoldedCommand, First, EntrySpan, RunStart, IsItem,
         IsEvent, NextContent, OnlyOne, HasOther, Reaches, Others, OtherEvents;
    Reads(env, ref, lines, at, end, cmd, ListEnd(lines, top, parent));
    Started(lines, top, parent, at, end);
    if Outcome(lines, top, parent, at, end).Removable? {
      RunIsExact(env, ref, lines, top, parent, at, end, cmd, Outcome(lines, top, parent, at, end).start);
    }
  }

  lemma FoundIn(env: Env, keyValue: string -> bool, ref: Ref, lines: seq<Line>, top: nat, parent: nat, at: nat,
      blockEnd: nat)
    requires top < parent < at < blockEnd <= |lines| && StandsUnder(lines, parent, at)
    ensures var listEnd := First(lines, parent + 1, blockEnd, IsOutsideList);
            at < listEnd && (BlockReadable(keyValue, lines, top, parent, at, listEnd, blockEnd) ==>
              FindIn(env, keyValue, ref, lines, top, parent, at, blockEnd, false) ==
              Decide(env, ref, lines, top, parent, at, listEnd, blockEnd, false))
  {
    hide BlockReadable, Decide, First;
    ListReaches(lines, parent, at, blockEnd);
  }

  lemma DumpedIsFound(env: Env, keyValue: string -> bool, ref: Ref, lines: seq<Line>, top: nat, parent: nat, at: nat,
      end: nat, cmd: string)
    requires Dumped(env, ref, lines, top, parent, at, end, cmd) && keyValue(lines[end - 1].text[6..])
    ensures FindUnder(env, keyValue, ref, lines, top) == Outcome(lines, top, parent, at, end)
  {
    OnlyOurs(env, ref, lines, top, parent, at, end, cmd);
    IsReadable(env, keyValue, ref, lines, top, parent, at, end, cmd);
    Decides(env, ref, lines, top, parent, at, end, cmd);
    var blockEnd, listEnd := BlockEnd(lines, top), ListEnd(lines, top, parent);
    assert top < parent < at < blockEnd <= |lines| && listEnd == First(lines, parent + 1, blockEnd, IsOutsideList);
    hide *;
    FoundUnder(env, keyValue, ref, lines, top, blockEnd, at, false);
    FoundIn(env, keyValue, ref, lines, top, parent, at, blockEnd);
  }

  lemma OutcomeStarts(lines: seq<Line>, top: nat, parent: nat, at: nat, end: nat)
    requires top < parent < at < end && top < |lines| && parent < BlockEnd(lines, top)
    ensures Outcome(lines, top, parent, at, end).Removable? ==>
              Outcome(lines, top, parent, at, end).start <= at && Outcome(lines, top, parent, at, end).end == end
  {
  }

  lemma TopIs(env: Env, keyValue: string -> bool, ref: Ref, b: string, top: nat)
    requires Around(b, top) && top < |Lines(b)| && IsHooksLine(Lines(b)[top])
    ensures FindStructured(env, keyValue, ref, b) == FindUnder(env, keyValue, ref, Lines(b), top)
  {
    hide FindUnder, Lines, ConfigScan, First, PlainMapping, HooksKeys, SplitLines;
    ScanIff(b);
    FirstIs(Lines(b), 0, top, |Lines(b)|, IsHooksLine);
  }

  /** The entry is found wherever its command is folded and in whichever style, alone or among others,
      whatever other events there are; and when it can be taken out, the file is every other line of it. */
  lemma DumpedEntryIsRemoved(env: Env, keyValue: string -> bool, ref: Ref, b: string, top: nat, parent: nat, at: nat,
      end: nat, cmd: string)
    requires Around(b, top) && Dumped(env, ref, Lines(b), top, parent, at, end, cmd)
    requires keyValue(Lines(b)[end - 1].text[6..])
    ensures FindStructured(env, keyValue, ref, b) == Outcome(Lines(b), top, parent, at, end)
    ensures Outcome(Lines(b), top, parent, at, end).Removable? ==>
              var start := Outcome(Lines(b), top, parent, at, end).start;
              && start <= end && RemoveOwnEntry(b, start, end) == Bytes(Lines(b)[..start]) + Bytes(Lines(b)[end..])
  {
    var lines := Lines(b);
    assert top < parent < at < end <= |lines| && parent < BlockEnd(lines, top) && IsHooksLine(lines[top]);
    hide *;
    TopIs(env, keyValue, ref, b, top);
    DumpedIsFound(env, keyValue, ref, lines, top, parent, at, end, cmd);
    OutcomeStarts(lines, top, parent, at, end);
    if Outcome(lines, top, parent, at, end).Removable? {
      RemovedLines(b, Outcome(lines, top, parent, at, end).start, end);
    }
  }

  lemma RemovedLines(b: string, start: nat, end: nat)
    requires start <= end <= |Lines(b)|
    ensures RemoveOwnEntry(b, start, end) == Bytes(Lines(b)[..start]) + Bytes(Lines(b)[end..])
  {
    BytesAppend(Lines(b)[..start], Lines(b)[end..]);
  }
}
