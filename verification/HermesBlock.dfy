/** Exactly which blocks are read, and that folding the command does not change what is read. */
module HermesBlock {
  import opened Wrappers
  import opened Text
  import Strconv
  import opened Hermes

  // ── scalars ──

  predicate Trimmed(s: string) {
    s != "" && s[0] !in SPACES && s[|s| - 1] !in SPACES
  }

  lemma TrimmedStays(s: string)
    requires Trimmed(s)
    ensures TrimSpace(s) == s
  {
  }

  lemma {:induction false} PaddingGoes(pad: string, s: string)
    requires Trimmed(s) && forall k :: 0 <= k < |pad| ==> pad[k] in SPACES
    ensures TrimSpace(pad + s) == s
  {
    if pad == "" {
      assert pad + s == s;
    } else {
      assert (pad + s)[1..] == pad[1..] + s;
      PaddingGoes(pad[1..], s);
      assert TrimLeft(pad + s, SPACES) == TrimLeft(pad[1..] + s, SPACES);
    }
  }

  lemma QuotedIsTrimmed(cmd: string)
    ensures Trimmed(YamlQuote(cmd))
  {
  }

  /** What the renderer quotes is what the reader decodes. */
  lemma DecodesQuoted(cmd: string)
    ensures DecodeScalar(YamlQuote(cmd)) == Some(cmd)
  {
    var q := YamlQuote(cmd);
    assert q[1..|q| - 1] == ReplaceAll(cmd, "'", "''");
    UnescapeEscape(cmd, SINGLE, "''");
  }

  /** A scalar in one of the two styles Hermes writes, plain or single-quoted, and what it says. */
  predicate Scalar(text: string, cmd: string) {
    Trimmed(text) && text[0] != DOUBLE && DecodeScalar(text) == Some(cmd)
  }

  lemma QuotedScalar(cmd: string)
    ensures Scalar(YamlQuote(cmd), cmd)
  {
    QuotedIsTrimmed(cmd);
    DecodesQuoted(cmd);
    assert YamlQuote(cmd)[0] == SINGLE;
  }

  /** A command can be written plain exactly where nothing at its beginning, and nothing in it,
      means anything else in YAML; and then it stands for itself. */
  lemma PlainScalar(cmd: string)
    requires Trimmed(cmd) && cmd[0] != SINGLE
    ensures Scalar(cmd, cmd) <==> cmd[0] != DOUBLE && cmd[0] !in INDICATORS && !Occurs(cmd, " #") && !Occurs(cmd, ": ")
  {
  }

  // ── a command folded over any number of lines ──

  /** The command on its own line and any deeper lines under it: joined by single spaces, the
      pieces are a scalar that says it. */
  ghost predicate FoldedCommand(lines: seq<Line>, cmd: string) {
    && lines != [] && COMMAND_PREFIX <= lines[0].text
    && (forall k :: 1 <= k < |lines| ==> IsContinuation(lines[k]))
    && Trimmed(lines[0].text[|COMMAND_PREFIX|..])
    && Scalar(lines[0].text[|COMMAND_PREFIX|..] + Spaced(Pieces(lines[1..])), cmd)
  }

  lemma {:induction false} CommandEndAt(lines: seq<Line>, k: nat, n: nat, end: nat)
    requires k <= n <= end <= |lines| && (n < end ==> !IsContinuation(lines[n]))
    requires forall j :: k <= j < n ==> IsContinuation(lines[j])
    ensures CommandEnd(lines, k, end) == n
    decreases n - k
  {
    if k < n {
      CommandEndAt(lines, k + 1, n, end);
    }
  }

  lemma CommandRestOf(p: string)
    ensures CommandRest(COMMAND_PREFIX + p) == Some(" " + p)
  {
    var text := COMMAND_PREFIX + p;
    assert text == COMMAND_KEY + (" " + p);
    assert text[..|COMMAND_KEY|] == COMMAND_KEY && text[|COMMAND_KEY|..] == " " + p;
  }

  /** Folding undone: wherever the scalar was split, the command is read back whole. */
  lemma FoldedReads(lines: seq<Line>, i: nat, n: nat, end: nat, cmd: string)
    requires i < n <= end <= |lines| && FoldedCommand(lines[i..n], cmd)
    requires n < end ==> !IsContinuation(lines[n])
    ensures CommandEnd(lines, i + 1, end) == n && ItemCommand(lines, i, end) == Some(cmd)
  {
    var f := lines[i..n];
    var text, p := lines[i].text, lines[i].text[|COMMAND_PREFIX|..];
    assert f[0] == lines[i] && f[1..] == lines[i + 1..n];
    forall j | i + 1 <= j < n
      ensures IsContinuation(lines[j])
    {
      assert lines[j] == f[j - i];
    }
    CommandEndAt(lines, i + 1, n, end);
    assert text == COMMAND_PREFIX + p;
    CommandRestOf(p);
    PaddingGoes(" ", p);
    TrimmedStays(p + Spaced(Pieces(f[1..])));
  }

  /** Splitting at any single spaces, onto lines indented past six columns, is such a folding. */
  lemma SplitIsFolded(lines: seq<Line>, cmd: string, pieces: seq<string>, pads: seq<string>)
    requires pieces != [] && |pads| == |lines| == |pieces|
    requires forall k :: 0 <= k < |pieces| ==> Trimmed(pieces[k])
    requires Scalar(pieces[0] + Spaced(pieces[1..]), cmd)
    requires lines[0].text == COMMAND_PREFIX + pieces[0]
    requires forall k :: 1 <= k < |lines| ==>
               && |pads[k]| > 6 && (forall j :: 0 <= j < |pads[k]| ==> pads[k][j] == ' ')
               && Trimmed(pieces[k]) && pieces[k][0] != '#' && lines[k] == ReadLine(lines[k].raw) &&
                  lines[k].text == pads[k] + pieces[k]
    ensures FoldedCommand(lines, cmd)
  {
    forall k | 1 <= k < |lines|
      ensures IsContinuation(lines[k]) && TrimSpace(lines[k].text) == pieces[k]
    {
      Indented(lines[k], pads[k], pieces[k]);
      PaddingGoes(pads[k], pieces[k]);
    }
    assert Pieces(lines[1..]) == pieces[1..];
    assert lines[0].text[|COMMAND_PREFIX|..] == pieces[0];
  }

  /** A line's indent is the length of the spaces in front of it. */
  lemma Indented(l: Line, pad: string, body: string)
    requires l == ReadLine(l.raw) && l.text == pad + body && body != "" && body[0] != '#' && body[0] !in BLANKS
    requires forall j :: 0 <= j < |pad| ==> pad[j] == ' '
    ensures l.indent == |pad| && !l.hasTabs
  {
    TrimLeftOnly(pad, body, BLANKS);
    assert l.text[..|pad|] == pad;
  }

  // ── exactly the blocks that are read and have nothing else in them ──

  /** The note, if it is there. */
  function NoteLines(block: seq<Line>): (n: nat)
    ensures n <= |block|
  {
    if block != [] && block[0].indent < 0 then 1 else 0
  }

  /** The block's lines as an entry's are, whatever command it holds. */
  ghost predicate Shaped(block: seq<Line>) {
    && (forall k :: 0 <= k < |block| ==> !block[k].hasTabs)
    && (forall k :: 0 <= k < |block| && block[k].indent < 0 ==> k == 0 && block[k].text == NOTE)
  }

  // ── the matcher ──

  /** The three ways to write a word: as it is, or in quotes of either kind. */
  predicate Writes(w: string, t: string) {
    w == t || w == "'" + t + "'" || Strconv.Unquote(w) == Some(t)
  }

  predicate IsWord(t: string) {
    t != "" && t[0] !in INDICATORS && SINGLE !in t && DOUBLE !in t && ' ' !in t && t[|t| - 1] !in BLANKS
  }

  lemma MatcherIsWord()
    ensures IsWord(MATCHER)
  {
    assert MATCHER[0] == 't' && 't' !in INDICATORS;
  }

  lemma WordDecodes(t: string)
    requires IsWord(t)
    ensures DecodeScalar(t) == Some(t) && Strconv.Unquote(t).None?
  {
    OccursHas(t, " #", 0);
    OccursHas(t, ": ", 1);
    assert t[0] in t;
  }

  lemma QuotesAround(t: string)
    requires SINGLE !in t
    ensures YamlQuote(t) == "'" + t + "'" && UnquoteSingle("'" + t + "'") == Some(t)
  {
    ReplaceNothing(t, "'", "''");
    ReplaceNothing(t, "''", "'");
    hide ReplaceAll;
    assert ("'" + t + "'")[1..|t| + 1] == t;
  }

  lemma WritingDecodes(w: string, t: string)
    requires IsWord(t)
    ensures DecodeScalar(w) == Some(t) <==> Writes(w, t)
    ensures Writes(w, t) ==> w != "" && w[0] != ' ' && w[|w| - 1] !in BLANKS
  {
    WordDecodes(t);
    QuotesAround(t);
    hide UnquoteSingle, YamlQuote, Contains, Strconv.UnescapeAll;
    assert ("'" + t + "'")[0] == SINGLE && t[0] in t;
  }

  /** The key at the entry's depth, spaces, and the tool's name: nothing behind it, not even a blank. */
  lemma MatcherIff(l: Line)
    ensures IsOurMatcher(l) <==>
            && l.indent == 6 && |l.text| >= 6
            && exists spaces, w :: MatcherForm(l.text[6..], spaces, w)
  {
    hide MatcherForm, DecodeScalar, TrimLeft, TrimRight;
    if l.indent == 6 && |l.text| >= 6 {
      var t := l.text[6..];
      if spaces, w :| MatcherForm(t, spaces, w) {
        MatcherTaken(t, spaces, w);
      }
      if IsOurMatcher(l) {
        MatcherRead(t);
      }
    }
  }

  predicate MatcherForm(t: string, spaces: string, w: string) {
    t == MATCHER_KEY + (spaces + w) && (forall c :: c in spaces ==> c == ' ') && Writes(w, MATCHER)
  }

  lemma MatcherTaken(t: string, spaces: string, w: string)
    requires MatcherForm(t, spaces, w)
    ensures MATCHER_KEY <= t && var v := TrimLeft(t[|MATCHER_KEY|..], {' '});
            v == TrimRight(v, BLANKS) && DecodeScalar(v) == Some(MATCHER)
  {
    MatcherIsWord();
    WritingDecodes(w, MATCHER);
    Prefixed(MATCHER_KEY, spaces + w);
    TrimLeftOnly(spaces, w, {' '});
    hide Writes, DecodeScalar, IsWord;
  }

  lemma Prefixed(a: string, b: string)
    ensures a <= a + b && (a + b)[|a|..] == b
  {
  }

  lemma Split(a: string, t: string)
    requires a <= t
    ensures t == a + t[|a|..]
  {
  }

  lemma LedBySpaces(rest: string) returns (spaces: string)
    ensures rest == spaces + TrimLeft(rest, {' '}) && forall c :: c in spaces ==> c == ' '
  {
    TrimLeftTakes(rest, {' '});
    spaces := rest[..|rest| - |TrimLeft(rest, {' '})|];
  }

  lemma MatcherRead(t: string)
    requires MATCHER_KEY <= t && var v := TrimLeft(t[|MATCHER_KEY|..], {' '});
             v == TrimRight(v, BLANKS) && DecodeScalar(v) == Some(MATCHER)
    ensures exists spaces, w :: MatcherForm(t, spaces, w)
  {
    hide Writes, DecodeScalar, TrimLeft, TrimRight, IsWord;
    var rest := t[|MATCHER_KEY|..];
    Split(MATCHER_KEY, t);
    MatcherIsWord();
    WritingDecodes(TrimLeft(rest, {' '}), MATCHER);
    var spaces := LedBySpaces(rest);
    assert MatcherForm(t, spaces, TrimLeft(rest, {' '}));
  }

  /** Our two headings, the command and what continues it, our matcher, under the note. */
  predicate EntryBody(block: seq<Line>, cmd: string) {
    var n := NoteLines(block);
    && n + 4 <= |block| && block[n].text == HEADING[0] && block[n + 1].text == HEADING[1]
    && CommandEnd(block, n + 3, |block|) == |block| - 1
    && ItemCommand(block, n + 2, |block|) == Some(cmd)
    && IsOurMatcher(block[|block| - 1])
  }

  /** One of our entries, whole, with nothing else among its lines. */
  ghost predicate IsEntry(block: seq<Line>, cmd: string) {
    Shaped(block) && EntryBody(block, cmd)
  }

  lemma NoTabs(block: seq<Line>)
    ensures FirstTab(block) == |block| <==> forall k :: 0 <= k < |block| ==> !block[k].hasTabs
  {
  }

  lemma NothingForeign(block: seq<Line>)
    ensures Foreign(block, 0) == |block| <==>
            forall k :: 0 <= k < |block| && block[k].indent < 0 ==> k == 0 && block[k].text == NOTE
  {
  }

  lemma ContentAt(block: seq<Line>, i: nat)
    requires i <= |block| && forall k :: i <= k < |block| ==> block[k].indent >= 0
    ensures NextContent(block, i) == i
  {
  }

  lemma FirstContent(block: seq<Line>)
    requires forall k :: 0 <= k < |block| && block[k].indent < 0 ==> k == 0
    ensures NextContent(block, 0) == NoteLines(block)
  {
    if block != [] && block[0].indent < 0 {
      assert NextContent(block, 1) == 1;
    }
  }

  /** Where every line has content, a heading is matched line by line. */
  lemma {:induction false} HeadingIff(block: seq<Line>, i: nat, want: seq<string>)
    requires i <= |block| && forall k :: i <= k < |block| ==> block[k].indent >= 0
    ensures ReadHeading(block, i, want) == Matched(i + |want|) ||
            (ReadHeading(block, i, want).Broken? && !Texts(block, i, want))
    ensures Texts(block, i, want) ==> ReadHeading(block, i, want).Matched?
    ensures ReadHeading(block, i, want).Matched? ==> Texts(block, i, want)
    decreases |want|
  {
    ContentAt(block, i);
    if want != [] && i < |block| && block[i].text == want[0] {
      HeadingIff(block, i + 1, want[1..]);
      if Texts(block, i + 1, want[1..]) {
        forall k | 0 <= k < |want|
          ensures block[i + k].text == want[k]
        {
          assert k > 0 ==> want[k] == want[1..][k - 1] && block[i + k] == block[i + 1 + (k - 1)];
        }
      }
      if Texts(block, i, want) {
        forall k | 0 <= k < |want[1..]|
          ensures block[i + 1 + k].text == want[1..][k]
        {
          assert block[i + (k + 1)].text == want[k + 1];
        }
      }
    } else if want != [] {
      FirstOfTexts(block, i, want);
    }
  }

  lemma FirstOfTexts(block: seq<Line>, i: nat, want: seq<string>)
    requires want != []
    ensures Texts(block, i, want) ==> i < |block| && block[i].text == want[0]
  {
    if Texts(block, i, want) {
      assert block[i + 0].text == want[0];
    }
  }

  predicate Texts(block: seq<Line>, i: nat, want: seq<string>) {
    i + |want| <= |block| && forall k :: 0 <= k < |want| ==> block[i + k].text == want[k]
  }

  lemma SkipsTo(block: seq<Line>, n: nat, want: seq<string>)
    requires n == NextContent(block, 0) && want != []
    ensures ReadHeading(block, 0, want) == ReadHeading(block, n, want)
  {
    assert NextContent(block, n) == n;
  }

  lemma HeadingTexts(block: seq<Line>, n: nat)
    ensures Texts(block, n, HEADING) <==>
            n + 2 <= |block| && block[n].text == HEADING[0] && block[n + 1].text == HEADING[1]
  {
    assert Texts(block, n, HEADING) ==> block[n + 0].text == HEADING[0];
  }

  lemma EntryFrom(block: seq<Line>, at: nat, cmd: string)
    requires at < |block| && forall k :: at <= k < |block| ==> block[k].indent >= 0
    ensures ReadEntry(block, at) == Holds(cmd) <==>
            && at + 2 <= |block| && ItemCommand(block, at, |block|) == Some(cmd)
            && CommandEnd(block, at + 1, |block|) == |block| - 1 && IsOurMatcher(block[|block| - 1])
  {
    hide ItemCommand, CommandEnd, IsOurMatcher;
    var m := CommandEnd(block, at + 1, |block|);
    ContentAt(block, m);
    if m < |block| {
      ContentAt(block, m + 1);
    }
  }

  lemma ShapedIff(block: seq<Line>)
    ensures Foreign(block, 0) == |block| && FirstTab(block) == |block| <==> Shaped(block)
  {
    hide Foreign, FirstTab;
    NoTabs(block);
    NothingForeign(block);
  }

  lemma ShapedReads(block: seq<Line>, cmd: string)
    requires Shaped(block)
    ensures var n := NoteLines(block);
            ReadBlock(block) == Holds(cmd) <==>
            && n + 2 < |block| && block[n].text == HEADING[0] && block[n + 1].text == HEADING[1]
            && ReadEntry(block, n + 2) == Holds(cmd)
  {
    hide ReadEntry, ReadHeading, Texts, FirstTab, NextContent;
    var n := NoteLines(block);
    NoTabs(block);
    FirstContent(block);
    SkipsTo(block, n, HEADING);
    HeadingIff(block, n, HEADING);
    HeadingTexts(block, n);
    if n + 2 <= |block| {
      ContentAt(block, n + 2);
    }
  }

  lemma ReadsBody(block: seq<Line>, cmd: string)
    requires Shaped(block)
    ensures ReadBlock(block) == Holds(cmd) <==> EntryBody(block, cmd)
  {
    hide ItemCommand, CommandEnd, IsOurMatcher, ReadEntry, ReadBlock;
    ShapedReads(block, cmd);
    if NoteLines(block) + 2 < |block| {
      ContentBelow(block);
      hide Shaped;
      EntryFrom(block, NoteLines(block) + 2, cmd);
    }
  }

  lemma ContentBelow(block: seq<Line>)
    requires Shaped(block)
    ensures forall k :: NoteLines(block) <= k < |block| ==> block[k].indent >= 0
  {
  }

  /** Read in full with nothing foreign in it: that is exactly being one of our entries. */
  lemma EntryIff(block: seq<Line>, cmd: string)
    ensures Foreign(block, 0) == |block| && ReadBlock(block) == Holds(cmd) <==> IsEntry(block, cmd)
  {
    hide Foreign, FirstTab, ReadBlock, Shaped, EntryBody;
    ShapedIff(block);
    TabStops(block);
    if Shaped(block) {
      ReadsBody(block, cmd);
    }
  }

  lemma TabStops(block: seq<Line>)
    ensures FirstTab(block) < |block| ==> ReadBlock(block).Stopped?
  {
  }
}
