/** Our marked block in Codex's config.toml: split, replaced where it stands, taken out. */
module CodexBlock {
  import opened Wrappers
  import opened Text
  import opened Hermes

  const FEED: set<char> := {'\n'}

  function Trimmed(s: string): string {
    TrimRight(s, FEED)
  }

  // ── around the block ──

  datatype Region = Region(pre: string, inner: string, post: string)

  lemma BeginChars()
    ensures BEGIN[0] == '#' && BEGIN[2] == '>' && forall k :: 0 < k < |BEGIN| ==> BEGIN[k] != '#' && BEGIN[k] != '\n'
    ensures |END| > 2 && END[0] == '#' && END[2] == '<' && |END| == |BEGIN|
  {
    assert forall k :: 0 <= k < |MARKER_NAME| ==> MARKER_NAME[k] != '#' && MARKER_NAME[k] != '\n';
    Joined3("# >>> ", MARKER_NAME, " >>>");
    Joined3("# <<< ", MARKER_NAME, " <<<");
  }

  lemma Joined3(a: string, b: string, c: string)
    ensures forall k :: 0 <= k < |a + b + c| ==>
              (a + b + c)[k] == if k < |a| then a[k] else if k < |a| + |b| then b[k - |a|] else c[k - |a| - |b|]
  {
  }

  /** The end marker cannot begin inside the begin marker. */
  lemma EndComesAfter(s: string, j: int)
    requires OccursAt(s, BEGIN, 0) && OccursAt(s, END, j)
    ensures j >= |BEGIN|
  {
    BeginChars();
    CharAt(s, END, j, 0);
    CharAt(s, END, j, 2);
    CharAt(s, BEGIN, 0, 2);
    forall k | 0 <= k < |BEGIN|
      ensures s[k] == BEGIN[k]
    {
      CharAt(s, BEGIN, 0, k);
    }
  }

  /** The block whose begin marker is at `i` and whose end marker is `j` after it. */
  function RegionAt(s: string, i: nat, j: nat): Region
    requires |BEGIN| <= j && i + j + |END| <= |s|
  {
    var close := i + j + |END|;
    var end := if close < |s| && s[close] == '\n' then close + 1 else close;
    Region(s[..i], s[i + |BEGIN|..i + j], s[end..])
  }

  /** One file split around the first block in it. */
  function MarkedRegion(s: string): Option<Region> {
    var i := Index(s, BEGIN);
    if i.None? then None
    else
      var rest := s[i.value..];
      var j := Index(rest, END);
      if j.None? then None
      else
        assert rest[0..0 + |BEGIN|] == s[i.value..i.value + |BEGIN|];
        EndComesAfter(rest, j.value);
        Some(RegionAt(s, i.value, j.value))
  }

  function RemoveMarked(s: string): Option<string> {
    var r := MarkedRegion(s);
    if r.None? then None
    else
      var pre := Trimmed(r.value.pre);
      Some(if pre == "" then r.value.post
           else if r.value.post == "" then pre + "\n"
           else pre + "\n\n" + r.value.post)
  }

  function AppendMarked(s: string, block: string): string {
    var pre := Trimmed(s);
    if pre == "" then block else pre + "\n\n" + block
  }

  function AppendTables(base: string, tables: string): string {
    var t, head := Trimmed(tables), Trimmed(base);
    if t == "" then base
    else if head == "" then t + "\n"
    else head + "\n\n" + t + "\n"
  }

  /** The block rewritten where it is, tables that are not ours moved directly below it. */
  function ReplaceInPlace(pre: string, want: string, foreign: string, post: string): string {
    var body := pre + want;
    (if Trimmed(foreign) != "" then AppendTables(body, foreign) else body) + post
  }

  // ── trailing line feeds ──

  lemma TrimmedIs(s: string)
    ensures Trimmed(s) <= s && (forall k :: |Trimmed(s)| <= k < |s| ==> s[k] == '\n')
    ensures Trimmed(s) != "" ==> Trimmed(s)[|Trimmed(s)| - 1] != '\n'
  {
    TrimRightTakes(s, FEED);
  }

  lemma {:induction false} TrimmedStays(s: string, feeds: string)
    requires (s == "" || s[|s| - 1] != '\n') && forall k :: 0 <= k < |feeds| ==> feeds[k] == '\n'
    ensures Trimmed(s + feeds) == s
  {
    TrimRightOnly(s, feeds, FEED);
  }

  // ── reading back what was written ──

  /** A block as the renderer writes one: its own end marker is the first in it. */
  ghost predicate IsBlock(block: string, inner: string) {
    block == BEGIN + inner + END + "\n" && !Occurs(inner + END[..|END| - 1], END)
  }

  lemma FirstBegin(pre: string, rest: string)
    requires !Occurs(pre, BEGIN) && (pre == "" || pre[|pre| - 1] == '\n')
    ensures Index(pre + BEGIN + rest, BEGIN) == Some(|pre|)
  {
    var s := pre + BEGIN + rest;
    BeginChars();
    assert s[|pre|..|pre| + |BEGIN|] == BEGIN;
    assert OccursAt(s, BEGIN, |pre|);
    forall k | OccursAt(s, BEGIN, k)
      ensures k >= |pre|
    {
      if k < |pre| {
        BeginIsNotAcross(pre, BEGIN + rest, k);
      }
    }
  }

  lemma BeginIsNotAcross(pre: string, rest: string, k: int)
    requires !Occurs(pre, BEGIN) && pre != "" && pre[|pre| - 1] == '\n' && 0 <= k < |pre|
    ensures !OccursAt(pre + rest, BEGIN, k)
  {
    var s := pre + rest;
    BeginChars();
    if OccursAt(s, BEGIN, k) {
      if k + |BEGIN| <= |pre| {
        assert pre[k..k + |BEGIN|] == s[k..k + |BEGIN|];
        assert OccursAt(pre, BEGIN, k);
      } else {
        CharAt(s, BEGIN, k, |pre| - 1 - k);
      }
    }
  }

  lemma ButLast(a: string, b: string, c: string, rest: string)
    requires c != ""
    ensures a + b + c + rest == a + (b + c[..|c| - 1]) + (c[|c| - 1..] + rest)
  {
  }

  lemma Within(a: string, t: string, b: string, k: nat, n: nat)
    requires |a| <= k && k + n <= |a| + |t|
    ensures (a + t + b)[k..k + n] == t[k - |a|..k - |a| + n]
  {
  }

  lemma FirstEnd(inner: string, rest: string)
    requires !Occurs(inner + END[..|END| - 1], END)
    ensures Index(BEGIN + inner + END + rest, END) == Some(|BEGIN + inner|)
  {
    var s, front := BEGIN + inner + END + rest, BEGIN + inner;
    BeginChars();
    assert s[|front|..|front| + |END|] == END;
    assert OccursAt(s, END, |front|);
    assert s[0..0 + |BEGIN|] == BEGIN;
    forall k | OccursAt(s, END, k)
      ensures k >= |front|
    {
      EndComesAfter(s, k);
      if k < |front| {
        var t, m := inner + END[..|END| - 1], k - |BEGIN|;
        ButLast(BEGIN, inner, END, rest);
        Within(BEGIN, t, END[|END| - 1..] + rest, k, |END|);
        assert OccursAt(t, END, m);
      }
    }
  }

  /** The region of a file whose first begin marker is our block's. */
  lemma RegionWhere(pre: string, block: string, inner: string, post: string)
    requires IsBlock(block, inner) && Index(pre + block + post, BEGIN) == Some(|pre|)
    ensures MarkedRegion(pre + block + post) == Some(Region(pre, inner, post))
  {
    hide Index, Occurs, MarkedRegion;
    Sliced(pre, BEGIN, inner, END, post);
    FirstEnd(inner, "\n" + post);
    RegionFound(pre + block + post, |pre|, |BEGIN + inner|);
  }

  lemma BlockBegins(pre: string, block: string, inner: string, post: string)
    requires IsBlock(block, inner)
    ensures pre + block + post == pre + BEGIN + (inner + (END + ("\n" + post)))
  {
    hide Occurs;
    Sliced(pre, BEGIN, inner, END, post);
  }

  /** The region of a file with our block in it, wherever in the file it stands. */
  lemma RegionOf(pre: string, block: string, inner: string, post: string)
    requires IsBlock(block, inner) && !Occurs(pre, BEGIN) && (pre == "" || pre[|pre| - 1] == '\n')
    ensures MarkedRegion(pre + block + post) == Some(Region(pre, inner, post))
  {
    hide Index, Occurs, MarkedRegion, IsBlock;
    BlockBegins(pre, block, inner, post);
    FirstBegin(pre, inner + (END + ("\n" + post)));
    RegionWhere(pre, block, inner, post);
  }

  lemma Sliced(pre: string, open: string, inner: string, close: string, post: string)
    ensures var s, j := pre + (open + inner + close + "\n") + post, |open + inner|;
            && s == pre + open + (inner + (close + ("\n" + post)))
            && s[..|pre|] == pre && s[|pre|..] == open + inner + close + ("\n" + post)
            && s[|pre| + |open|..|pre| + j] == inner
            && |pre| + j + |close| < |s| && s[|pre| + j + |close|] == '\n' && s[|pre| + j + |close| + 1..] == post
  {
  }

  lemma RegionFound(s: string, i: nat, j: nat)
    requires Index(s, BEGIN) == Some(i) && Index(s[i..], END) == Some(j)
    requires |BEGIN| <= j && i + j + |END| <= |s|
    ensures MarkedRegion(s) == Some(RegionAt(s, i, j))
  {
    hide Index, RegionAt;
  }

  /** What a file is once our block has been appended and taken out again. */
  function Normal(s: string): string {
    if Trimmed(s) == "" then "" else Trimmed(s) + "\n"
  }

  lemma OccursInTrimmed(s: string, p: string)
    requires Occurs(Trimmed(s), p)
    ensures Occurs(s, p)
  {
    TrimmedIs(s);
    assert s == Trimmed(s) + s[|Trimmed(s)|..];
    OccursInFront(Trimmed(s), s[|Trimmed(s)|..], p);
  }

  lemma AppendedRegion(s: string, block: string, inner: string)
    requires IsBlock(block, inner) && !Occurs(s, BEGIN)
    ensures MarkedRegion(AppendMarked(s, block)) ==
            Some(Region(if Trimmed(s) == "" then "" else Trimmed(s) + "\n\n", inner, ""))
  {
    hide MarkedRegion, Trimmed;
    var t := Trimmed(s);
    BeginChars();
    if Occurs(t, BEGIN) {
      OccursInTrimmed(s, BEGIN);
    }
    assert BEGIN[|BEGIN| - 1] !in "\n\n";
    OccursBefore(t, "\n\n", BEGIN);
    RegionOf(if t == "" then "" else t + "\n\n", block, inner, "");
    assert "" + block + "" == block && t + "\n\n" + block + "" == t + "\n\n" + block;
  }

  /** Append, then remove: the file again, but for line feeds at its end. */
  lemma RemoveAppended(s: string, block: string, inner: string)
    requires IsBlock(block, inner) && !Occurs(s, BEGIN)
    ensures RemoveMarked(AppendMarked(s, block)) == Some(Normal(s))
    ensures RemoveMarked(AppendMarked(s, block)) == Some(s) <==> s == "" || (Trimmed(s) != "" && s == Trimmed(s) + "\n")
  {
    hide MarkedRegion, Index;
    AppendedRegion(s, block, inner);
    TrimmedIs(s);
    TrimmedStays(Trimmed(s), "\n\n");
    TrimmedStays("", "");
  }

  /** Append, remove, append: what the first append wrote, for every file without a block. */
  lemma AppendRemoveAppend(s: string, block: string, inner: string)
    requires IsBlock(block, inner) && !Occurs(s, BEGIN)
    ensures var removed := RemoveMarked(AppendMarked(s, block));
            removed.Some? && AppendMarked(removed.value, block) == AppendMarked(s, block)
  {
    hide MarkedRegion, Index, RemoveMarked;
    RemoveAppended(s, block, inner);
    TrimmedIs(s);
    TrimmedStays(Trimmed(s), "\n");
    TrimmedStays("", "");
  }

  /** What comes directly below a block that is rewritten where it stands. */
  function Below(foreign: string): string {
    if Trimmed(foreign) == "" then "" else "\n" + Trimmed(foreign) + "\n"
  }

  lemma ReplacedText(pre: string, block: string, inner: string, foreign: string, post: string)
    requires IsBlock(block, inner)
    ensures ReplaceInPlace(pre, block, foreign, post) == pre + block + Below(foreign) + post
  {
    hide Trimmed;
    var t := Trimmed(foreign);
    if t != "" {
      var head := pre + BEGIN + inner + END;
      BeginChars();
      EndHasNoFeed(head, pre + BEGIN + inner);
      TrimmedStays(head, "\n");
      OneFeed(pre, BEGIN, inner, END, t);
    }
  }

  lemma OneFeed(pre: string, a: string, inner: string, b: string, t: string)
    ensures pre + (a + inner + b + "\n") == (pre + a + inner + b) + "\n"
    ensures (pre + a + inner + b) + "\n\n" + t + "\n" == pre + (a + inner + b + "\n") + ("\n" + t + "\n")
  {
  }

  /** A block rewritten where it stands: what was before it and what was after it are untouched,
      the tables that were not ours come directly below it, and the block reads as the renderer's. */
  lemma ReplacedInPlace(pre: string, block: string, inner: string, foreign: string, post: string)
    requires IsBlock(block, inner) && !Occurs(pre, BEGIN) && (pre == "" || pre[|pre| - 1] == '\n')
    ensures ReplaceInPlace(pre, block, foreign, post) == pre + block + Below(foreign) + post
    ensures MarkedRegion(ReplaceInPlace(pre, block, foreign, post)) == Some(Region(pre, inner, Below(foreign) + post))
  {
    hide MarkedRegion, Index, Below, ReplaceInPlace;
    ReplacedText(pre, block, inner, foreign, post);
    assert pre + block + Below(foreign) + post == pre + block + (Below(foreign) + post);
    RegionOf(pre, block, inner, Below(foreign) + post);
  }

  lemma EndHasNoFeed(head: string, front: string)
    requires head == front + END
    ensures head != "" && head[|head| - 1] == '<'
  {
    Joined3("# <<< ", MARKER_NAME, " <<<");
    assert END[|END| - 1] == '<';
  }

  // ── the same in a file whose block may stand anywhere in a line ──

  lemma SameFront(s: string, t: string, n: nat, p: string, k: nat)
    requires n <= |s| && n <= |t| && s[..n] == t[..n] && OccursAt(t, p, k) && k + |p| <= n
    ensures OccursAt(s, p, k)
  {
    assert s[k..k + |p|] == s[..n][k..k + |p|];
    assert t[k..k + |p|] == t[..n][k..k + |p|];
  }

  lemma FirstBeginAgain(s: string, i: nat, rest: string)
    requires Index(s, BEGIN) == Some(i)
    ensures Index(s[..i] + BEGIN + rest, BEGIN) == Some(i)
  {
    hide Index, OccursAt;
    FoundText(s, i, BEGIN);
    var front := s[..i] + BEGIN;
    var t := front + rest;
    assert t[..i + |BEGIN|] == front == s[..i + |BEGIN|];
    TextFound(s[..i], BEGIN, rest);
    forall k | OccursAt(t, BEGIN, k)
      ensures k >= i
    {
      if 0 <= k < i {
        SameFront(s, t, i + |BEGIN|, BEGIN, k);
      }
      Placed(t, BEGIN, k);
    }
    Least(t, BEGIN, i);
  }

  lemma Placed(t: string, p: string, k: int)
    requires OccursAt(t, p, k)
    ensures k >= 0
  {
  }

  lemma Least(t: string, p: string, i: nat)
    requires OccursAt(t, p, i) && forall k :: OccursAt(t, p, k) ==> k >= i
    ensures Index(t, p) == Some(i)
  {
    hide Index, OccursAt;
  }

  lemma FoundText(s: string, i: nat, p: string)
    requires OccursAt(s, p, i)
    ensures i + |p| <= |s| && s[..i + |p|] == s[..i] + p
  {
  }

  lemma TextFound(a: string, p: string, rest: string)
    ensures OccursAt(a + p + rest, p, |a|)
  {
  }

  lemma RegionBefore(s: string)
    requires MarkedRegion(s).Some?
    ensures Index(s, BEGIN).Some? && MarkedRegion(s).value.pre == s[..Index(s, BEGIN).value]
  {
    hide Index, Occurs;
  }

  /** Any block put where the first one stands is the first one then. */
  lemma RegionRewritten(s: string, block: string, inner: string, post: string)
    requires IsBlock(block, inner) && MarkedRegion(s).Some?
    ensures var pre := MarkedRegion(s).value.pre;
            MarkedRegion(pre + block + post) == Some(Region(pre, inner, post))
  {
    hide Index, Occurs, MarkedRegion, IsBlock;
    RegionBefore(s);
    var i := Index(s, BEGIN).value;
    BlockBegins(s[..i], block, inner, post);
    FirstBeginAgain(s, i, inner + (END + ("\n" + post)));
    RegionWhere(s[..i], block, inner, post);
  }

  lemma IndexSome(s: string, p: string)
    ensures Index(s, p).Some? <==> Occurs(s, p)
  {
    hide Index;
  }

  lemma TailOccurs(s: string, p: string, i: nat, k: nat)
    requires i <= k && i <= |s|
    ensures OccursAt(s, p, k) <==> OccursAt(s[i..], p, k - i)
  {
    if k + |p| <= |s| {
      assert s[i..][k - i..k - i + |p|] == s[k..k + |p|];
    }
  }

  /** A file has a block exactly when an end marker comes after its first begin marker; and then the
      region is what stands between those two. */
  lemma RegionIff(s: string)
    ensures MarkedRegion(s).Some? <==>
            exists i, j :: OccursAt(s, BEGIN, i) && OccursAt(s, END, j) && i <= j &&
                           forall k :: OccursAt(s, BEGIN, k) ==> i <= k
    ensures MarkedRegion(s).Some? ==>
              var r := MarkedRegion(s).value;
              && (s == r.pre + BEGIN + r.inner + END + r.post || s == r.pre + BEGIN + r.inner + END + "\n" + r.post)
              && (forall k :: OccursAt(s, BEGIN, k) ==> |r.pre| <= k)
              && (forall j :: OccursAt(s, END, j) && |r.pre| <= j ==> |r.pre| + |BEGIN| + |r.inner| <= j)
  {
    hide Index, Occurs, RegionAt;
    IndexSome(s, BEGIN);
    if Index(s, BEGIN).Some? {
      var i := Index(s, BEGIN).value;
      var rest := s[i..];
      IndexSome(rest, END);
      forall j: int | i <= j
        ensures OccursAt(s, END, j) <==> OccursAt(rest, END, j - i)
      {
        TailOccurs(s, END, i, j);
      }
      EndsBehind(s, i);
      if Index(rest, END).Some? {
        var j := Index(rest, END).value;
        TailOccurs(s, BEGIN, i, i);
        EndComesAfter(rest, j);
        RegionRejoins(s, i, j);
        RegionFound(s, i, j);
        assert OccursAt(s, END, i + j);
      }
    } else {
      NoneOccurs(s, BEGIN);
    }
  }

  lemma NoneOccurs(s: string, p: string)
    requires !Occurs(s, p)
    ensures forall k :: !OccursAt(s, p, k)
  {
  }

  lemma EndsBehind(s: string, i: nat)
    requires i <= |s|
    ensures Occurs(s[i..], END) <==> exists j :: i <= j && OccursAt(s, END, j)
  {
    forall j: int | i <= j
      ensures OccursAt(s, END, j) <==> OccursAt(s[i..], END, j - i)
    {
      TailOccurs(s, END, i, j);
    }
    if k :| OccursAt(s[i..], END, k) {
      assert i <= k + i && OccursAt(s, END, k + i);
    }
  }

  lemma RegionRejoins(s: string, i: nat, j: nat)
    requires OccursAt(s, BEGIN, i) && OccursAt(s[i..], END, j) && |BEGIN| <= j && i + j + |END| <= |s|
    ensures var r := RegionAt(s, i, j);
            && |r.pre| == i && |BEGIN| + |r.inner| == j
            && (s == r.pre + BEGIN + r.inner + END + r.post || s == r.pre + BEGIN + r.inner + END + "\n" + r.post)
  {
    var close := i + j + |END|;
    assert s == s[..i] + s[i..i + |BEGIN|] + s[i + |BEGIN|..i + j] + s[i + j..close] + s[close..];
    assert s[i + j..close] == s[i..][j..j + |END|] == END;
    if close < |s| && s[close] == '\n' {
      assert s[close..] == "\n" + s[close + 1..];
    }
  }
}
