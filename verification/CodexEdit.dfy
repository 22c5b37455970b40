/** The two edits of Codex's config.toml from beginning to end: our table written and taken out, every
    other table that stood in the block kept. */
module CodexEdit {
  import opened Wrappers
  import opened Text
  import Hermes
  import opened CodexBlock
  import opened CodexTables

  datatype Outcome = Unchanged | Changed(file: string)

  // ── the two edits ──

  /** planCodexSandbox. `owned` is whether our tables name this installation. */
  function Install(toml: Toml, owned: string -> bool, s: string, want: string): Outcome {
    var stripped := if RemoveMarked(s).Some? then RemoveMarked(s).value else s;
    var r, w := MarkedRegion(s), MarkedRegion(want);
    if Contains(stripped, "[" + OURS + "]") then Unchanged
    else if r.None? then Changed(AppendMarked(stripped, want))
    else
      var have := SplitCodexBlock(toml, r.value.inner);
      var wanted := SplitCodexBlock(toml, if w.Some? then w.value.inner else "");
      if have.None? then Unchanged
      else if Texts(have.value.ours) == (if wanted.Some? then Texts(wanted.value.ours) else "") &&
              have.value.foreign == [] then Unchanged
      else if !owned(Texts(have.value.ours)) then Unchanged
      else Changed(ReplaceInPlace(r.value.pre, want, Texts(have.value.foreign), r.value.post))
  }

  /** removeOurSandboxBlock. */
  function Remove(toml: Toml, owned: string -> bool, s: string): Outcome {
    var stripped, r := RemoveMarked(s), MarkedRegion(s);
    if stripped.None? || r.None? then Unchanged
    else
      var have := SplitCodexBlock(toml, r.value.inner);
      if have.None? || !owned(Texts(have.value.ours)) then Unchanged
      else Changed(AppendTables(stripped.value, Texts(have.value.foreign)))
  }

  // ── what stood in the block ──

  /** The block is comments and the tables of these two, each in its own bytes, ours apart from the
      others' and both in the order they stood in. */
  ghost predicate Held(toml: Toml, region: string, c: Contents) {
    exists preamble, sections ::
      && preamble + Texts(sections) == region && OnlyComments(preamble) && Shuffled(c.ours, c.foreign, sections)
      && (forall k :: 0 <= k < |c.ours| ==> c.ours[k].name == OURS)
      && (forall k :: 0 <= k < |c.foreign| ==> c.foreign[k].name != OURS && !toml.definesOurs(c.foreign[k].text))
      && (c.ours != [] ==> toml.onlyOurs(Texts(c.ours)))
  }

  lemma WhatIsHeld(toml: Toml, region: string)
    requires SplitCodexBlock(toml, region).Some?
    ensures Held(toml, region, SplitCodexBlock(toml, region).value)
  {
    hide SplitCodexBlock, Cut, OnlyComments, Shuffled;
    BlockIsAccountedFor(toml, region);
    var cut := Cut(toml, region);
    assert cut.preamble + Texts(cut.sections) == region;
  }

  /** A block as the renderer writes one, holding our table and nothing else. */
  ghost predicate Renders(toml: Toml, want: string, inner: string) {
    IsBlock(want, inner) && SplitCodexBlock(toml, inner).Some? && SplitCodexBlock(toml, inner).value.foreign == []
  }

  lemma RendersItself(want: string, inner: string)
    requires IsBlock(want, inner)
    ensures MarkedRegion(want) == Some(Region("", inner, ""))
  {
    hide MarkedRegion;
    BeginChars();
    OccursHas("", Hermes.BEGIN, 0);
    RegionOf("", want, inner, "");
    assert "" + want + "" == want;
  }

  // ── line feeds ──

  predicate OnlyFeeds(s: string) {
    forall k :: 0 <= k < |s| ==> s[k] == '\n'
  }

  lemma AllOf(s: string)
    ensures s == Trimmed(s) + s[|Trimmed(s)|..] && OnlyFeeds(s[|Trimmed(s)|..])
  {
    TrimmedIs(s);
  }

  /** What is around the block when it is gone. */
  function Around(pre: string, post: string): string {
    if Trimmed(pre) == "" then post
    else if post == "" then Trimmed(pre) + "\n"
    else Trimmed(pre) + "\n\n" + post
  }

  // ── when they act ──

  const TABLE := "[" + OURS + "]"

  lemma TableHasNoFeed()
    ensures TABLE != "" && '\n' !in TABLE
  {
    assert '\n' !in OURS;
  }

  /** Line feeds between the text before a block and the text after it hide no table of ours. */
  lemma AroundOccurs(pre: string, post: string, p: string)
    requires p != "" && '\n' !in p
    ensures Occurs(Around(pre, post), p) <==> Occurs(pre, p) || Occurs(post, p)
  {
    hide Occurs, Trimmed;
    var a := Trimmed(pre);
    AllOf(pre);
    FeedsHide(a, pre[|a|..], "", p);
    FeedsHide(a, "\n", "", p);
    FeedsHide(a, "\n\n", post, p);
    OccursHas("", p, 0);
    assert a + pre[|a|..] + "" == pre && a + "\n" + "" == a + "\n" && "" + "" + "" == "";
    if a == "" {
      FeedsHide("", pre, "", p);
      assert "" + pre + "" == pre;
    }
  }

  lemma FeedsHide(a: string, feeds: string, b: string, p: string)
    requires p != "" && '\n' !in p && OnlyFeeds(feeds) && (feeds != "" || a == "" || b == "")
    ensures Occurs(a + feeds + b, p) <==> Occurs(a, p) || Occurs(b, p)
  {
    if Occurs(a, p) {
      OccursInFront(a, feeds, p);
      OccursInFront(a + feeds, b, p);
    }
    if Occurs(b, p) {
      OccursBehind(a + feeds, b, p);
    }
    if k :| OccursAt(a + feeds + b, p, k) {
      FeedsApart(a, feeds, b, p, k);
    }
  }

  lemma FeedsApart(a: string, feeds: string, b: string, p: string, k: nat)
    requires p != "" && '\n' !in p && OnlyFeeds(feeds) && (feeds != "" || a == "" || b == "")
    requires OccursAt(a + feeds + b, p, k)
    ensures Occurs(a, p) || Occurs(b, p)
  {
    var t, n := a + feeds + b, |a| + |feeds|;
    if k + |p| <= |a| {
      assert a[k..k + |p|] == t[k..k + |p|];
      assert OccursAt(a, p, k);
    } else if k >= n {
      assert b[k - n..k - n + |p|] == t[k..k + |p|];
      assert OccursAt(b, p, k - n);
    } else {
      var m := if k < |a| then |a| else k;
      assert |a| <= m < n && t[m] == feeds[m - |a|];
      NoFeedAt(p, m - k);
      CharAt(t, p, k, m - k);
    }
  }

  lemma NoFeedAt(p: string, i: nat)
    requires i < |p| && '\n' !in p
    ensures p[i] != '\n'
  {
  }

  /** What stands around the block, or the whole file where there is none, has no table of our name. */
  ghost predicate NoOtherTable(s: string) {
    match MarkedRegion(s)
    case None => !Occurs(s, TABLE)
    case Some(r) => !Occurs(r.pre, TABLE) && !Occurs(r.post, TABLE)
  }

  /** Install writes a file exactly where nobody else's text defines our table, and there is no block, or
      one that reads as tables, is this installation's, and is not the wanted one alone already. */
  lemma InstallActs(toml: Toml, owned: string -> bool, s: string, want: string, inner: string)
    requires Renders(toml, want, inner)
    ensures Install(toml, owned, s, want).Changed? <==>
            && NoOtherTable(s)
            && (MarkedRegion(s).Some? ==>
                 var c := SplitCodexBlock(toml, MarkedRegion(s).value.inner);
                 && c.Some? && owned(Texts(c.value.ours))
                 && !(c.value.foreign == [] &&
                      Texts(c.value.ours) == Texts(SplitCodexBlock(toml, inner).value.ours)))
    ensures Install(toml, owned, s, want).Changed? && MarkedRegion(s).None? ==>
              Install(toml, owned, s, want).file ==
              if Trimmed(s) == "" then want else Trimmed(s) + "\n\n" + want
  {
    hide MarkedRegion, SplitCodexBlock, IsBlock, Trimmed, Occurs, Around, ReplaceInPlace;
    RendersItself(want, inner);
    TableHasNoFeed();
    if MarkedRegion(s).Some? {
      var r := MarkedRegion(s).value;
      AroundOccurs(r.pre, r.post, TABLE);
      RemovedIsAround(s);
    }
  }

  lemma RemovedIsAround(s: string)
    requires MarkedRegion(s).Some?
    ensures RemoveMarked(s) == Some(Around(MarkedRegion(s).value.pre, MarkedRegion(s).value.post))
  {
    hide MarkedRegion, Trimmed;
  }

  /** A removal acts exactly on a block that reads as tables and is this installation's. */
  lemma RemoveActs(toml: Toml, owned: string -> bool, s: string)
    ensures Remove(toml, owned, s).Changed? <==>
            && MarkedRegion(s).Some?
            && var c := SplitCodexBlock(toml, MarkedRegion(s).value.inner);
               c.Some? && owned(Texts(c.value.ours))
  {
    hide MarkedRegion, SplitCodexBlock, Trimmed;
  }

  // ── installing ──

  /** For every file with a block: what is written is the text before the block and after it, to the
      byte, our block between them, and directly below it the tables of others that stood in the old
      one, in their order and to the byte but for line feeds at the end. */
  lemma InstallMovesOut(toml: Toml, owned: string -> bool, s: string, want: string, inner: string)
    requires IsBlock(want, inner) && MarkedRegion(s).Some? && Install(toml, owned, s, want).Changed?
    ensures var r, c := MarkedRegion(s).value, SplitCodexBlock(toml, MarkedRegion(s).value.inner);
            && c.Some? && Held(toml, r.inner, c.value) && owned(Texts(c.value.ours))
            && Install(toml, owned, s, want).file == r.pre + want + Below(Texts(c.value.foreign)) + r.post
            && MarkedRegion(Install(toml, owned, s, want).file) ==
               Some(Region(r.pre, inner, Below(Texts(c.value.foreign)) + r.post))
  {
    hide MarkedRegion, Index, SplitCodexBlock, Held, Below, ReplaceInPlace, RemoveMarked, AppendMarked, IsBlock,
         Contains;
    var r := MarkedRegion(s).value;
    var c := SplitCodexBlock(toml, r.inner).value;
    WhatIsHeld(toml, r.inner);
    ReplacedText(r.pre, want, inner, Texts(c.foreign), r.post);
    RegionRewritten(s, want, inner, Below(Texts(c.foreign)) + r.post);
    Behind(r.pre + want, Below(Texts(c.foreign)), r.post);
  }

  lemma Behind(a: string, b: string, c: string)
    ensures a + b + c == a + (b + c)
  {
  }

  /** What has been installed once is left alone: the second run finds nothing to write. */
  lemma InstallSettles(toml: Toml, owned: string -> bool, s: string, want: string, inner: string)
    requires Renders(toml, want, inner) && (MarkedRegion(s).None? ==> !Occurs(s, Hermes.BEGIN))
    ensures Install(toml, owned, s, want).Changed? ==>
              Install(toml, owned, Install(toml, owned, s, want).file, want).Unchanged?
  {
    hide MarkedRegion, Index, SplitCodexBlock, Held, Below, ReplaceInPlace, AppendMarked, IsBlock, Contains, Trimmed;
    RendersItself(want, inner);
    if Install(toml, owned, s, want).Changed? {
      if MarkedRegion(s).Some? {
        InstallMovesOut(toml, owned, s, want, inner);
      } else {
        AppendedRegion(s, want, inner);
      }
    }
  }

  // ── removing ──

  /** These pieces of text in their order, but for line feeds at the end of each. */
  ghost predicate Pieces(pieces: seq<string>, text: string) {
    if pieces == [] then text == ""
    else exists feeds, rest ::
           text == Trimmed(pieces[0]) + feeds + rest && OnlyFeeds(feeds) && Pieces(pieces[1..], rest)
  }

  lemma OnePiece(a: string, feeds: string)
    requires OnlyFeeds(feeds)
    ensures Pieces([a], Trimmed(a) + feeds)
  {
    assert [a][1..] == [] && Trimmed(a) + feeds == Trimmed(a) + feeds + "";
    assert Pieces([a][1..], "");
  }

  lemma MorePieces(a: string, feeds: string, pieces: seq<string>, rest: string)
    requires OnlyFeeds(feeds) && Pieces(pieces, rest)
    ensures Pieces([a] + pieces, Trimmed(a) + feeds + rest)
  {
    assert ([a] + pieces)[1..] == pieces;
  }

  lemma TrimmedTwo(a: string, b: string)
    ensures Trimmed(a + b) == if Trimmed(b) == "" then Trimmed(a) else a + Trimmed(b)
  {
    hide Trimmed;
    AllOf(a);
    AllOf(b);
    TrimmedIs(b);
    TrimmedIs(a);
    if Trimmed(b) == "" {
      TrimmedStays(Trimmed(a), a[|Trimmed(a)|..] + b);
      Behind(Trimmed(a), a[|Trimmed(a)|..], b);
    } else {
      LastOf(a, Trimmed(b));
      TrimmedStays(a + Trimmed(b), b[|Trimmed(b)|..]);
      Behind(a, Trimmed(b), b[|Trimmed(b)|..]);
    }
  }

  lemma LastOf(a: string, b: string)
    requires b != ""
    ensures a + b != "" && (a + b)[|a + b| - 1] == b[|b| - 1]
  {
  }

  lemma AroundIs(pre: string, post: string) returns (gap: string)
    ensures OnlyFeeds(gap) && Around(pre, post) == Trimmed(pre) + gap + post
  {
    hide Trimmed;
    gap := if Trimmed(pre) == "" then "" else if post == "" then "\n" else "\n\n";
    assert "" + "" + post == post && Trimmed(pre) + "\n" + "" == Trimmed(pre) + "\n";
  }

  lemma TrimmedAround(a: string, gap: string, post: string)
    requires (a == "" || a[|a| - 1] != '\n') && OnlyFeeds(gap)
    ensures Trimmed(a + gap + post) == a + (if Trimmed(post) == "" then "" else gap) + Trimmed(post)
  {
    hide Trimmed;
    TrimmedTwo(a + gap, post);
    TrimmedStays(a, gap);
  }

  lemma ThreePieces(pre: string, gap: string, post: string, sep: string, t: string, feeds: string)
    requires OnlyFeeds(gap) && OnlyFeeds(sep) && OnlyFeeds(feeds)
    ensures Pieces([pre, post, t], Trimmed(pre) + gap + (Trimmed(post) + sep + (Trimmed(t) + feeds)))
  {
    hide Trimmed, Pieces, OnlyFeeds;
    OnePiece(t, feeds);
    MorePieces(post, sep, [t], Trimmed(t) + feeds);
    MorePieces(pre, gap, [post] + [t], Trimmed(post) + sep + (Trimmed(t) + feeds));
    assert [pre] + ([post] + [t]) == [pre, post, t];
  }

  /** The tables of others come behind what is left of the file. */
  lemma AroundAndTables(pre: string, post: string, t: string)
    ensures Pieces([pre, post, t], AppendTables(Around(pre, post), t))
  {
    hide Trimmed, Pieces, Around;
    var gap := AroundIs(pre, post);
    TrimmedIs(pre);
    AllOf(post);
    if Trimmed(t) == "" {
      var end := post[|Trimmed(post)|..];
      ThreePieces(pre, gap, post, end, t, "");
      assert Trimmed(post) + end + ("" + "") == post;
    } else {
      TrimmedAround(Trimmed(pre), gap, post);
      var inner := if Trimmed(post) == "" then "" else gap;
      var sep := if Trimmed(Around(pre, post)) == "" then "" else "\n\n";
      ThreePieces(pre, inner, post, sep, t, "\n");
      Regroup(Trimmed(pre), inner, Trimmed(post), sep, Trimmed(t));
    }
  }

  lemma Regroup(a: string, gap: string, b: string, sep: string, x: string)
    ensures a + gap + (b + sep + (x + "\n")) == a + gap + b + sep + x + "\n"
    ensures a + gap + b == "" && sep == "" ==> a + gap + (b + sep + (x + "\n")) == x + "\n"
  {
  }

  /** For every file with a block: what is left is the text before it, the text after it and the tables
      of others that stood in it, in this order and to the byte but for line feeds at the end of each. */
  lemma MovedOut(toml: Toml, owned: string -> bool, s: string)
    requires Remove(toml, owned, s).Changed?
    ensures MarkedRegion(s).Some?
    ensures var r, c := MarkedRegion(s).value, SplitCodexBlock(toml, MarkedRegion(s).value.inner);
            && c.Some? && Held(toml, r.inner, c.value) && owned(Texts(c.value.ours))
            && Pieces([r.pre, r.post, Texts(c.value.foreign)], Remove(toml, owned, s).file)
  {
    hide MarkedRegion, SplitCodexBlock, Held, Pieces, Trimmed, AppendTables;
    var r := MarkedRegion(s).value;
    WhatIsHeld(toml, r.inner);
    AroundAndTables(r.pre, r.post, Texts(SplitCodexBlock(toml, r.inner).value.foreign));
  }

  /** Installed and removed again, a file without a block is what it was but for line feeds at its end. */
  lemma InstallRemove(toml: Toml, owned: string -> bool, s: string, want: string, inner: string)
    requires Renders(toml, want, inner) && !Occurs(s, Hermes.BEGIN)
    requires owned(Texts(SplitCodexBlock(toml, inner).value.ours))
    requires Install(toml, owned, s, want).Changed?
    ensures Remove(toml, owned, Install(toml, owned, s, want).file) == Changed(Normal(s))
  {
    hide Index, SplitCodexBlock, Trimmed, IsBlock, AppendMarked, Normal;
    OccursHas("", Hermes.BEGIN, 0);
    assert MarkedRegion(s).None? && RemoveMarked(s).None?;
    hide MarkedRegion, RemoveMarked;
    RemoveAppended(s, want, inner);
    AppendedRegion(s, want, inner);
    TrimmedStays("", "");
    assert "" + "" == "" && Texts([]) == "";
    assert Install(toml, owned, s, want).file == AppendMarked(s, want);
    assert AppendTables(Normal(s), "") == Normal(s);
  }
}
