/** Strings as the client's Go code handles them. A `char` is one Unicode scalar value. */
module Text {
  import opened Wrappers

  const SINGLE: char := '\''
  const DOUBLE: char := '\"'
  const BACKSLASH: char := '\\'

  // ── searching ──

  predicate OccursAt(s: string, p: string, k: int) {
    0 <= k && k + |p| <= |s| && s[k..k + |p|] == p
  }

  ghost predicate Occurs(s: string, p: string) {
    exists k :: OccursAt(s, p, k)
  }

  lemma OccursInTail(s: string, p: string, k: int)
    requires OccursAt(s, p, k) && !(p <= s)
    ensures k > 0 && OccursAt(s[1..], p, k - 1)
  {
    assert s[..|p|] == s[0..|p|];
    assert s[1..][k - 1..k - 1 + |p|] == s[k..k + |p|];
  }

  /** strings.Index: the first place `p` occurs at, if any. */
  function Index(s: string, p: string): (r: Option<nat>)
    ensures r.Some? ==> OccursAt(s, p, r.value) && forall k :: OccursAt(s, p, k) ==> r.value <= k
    ensures r.None? ==> !Occurs(s, p)
  {
    if |s| < |p| then None
    else if p <= s then Some(0)
    else
      var r := Index(s[1..], p);
      assert forall k :: OccursAt(s, p, k) ==> k > 0 && OccursAt(s[1..], p, k - 1) by {
        forall k | OccursAt(s, p, k)
          ensures k > 0 && OccursAt(s[1..], p, k - 1)
        {
          OccursInTail(s, p, k);
        }
      }
      if r.None? then None else Some(r.value + 1)
  }

  function Contains(s: string, p: string): (r: bool)
    ensures r <==> Occurs(s, p)
  {
    Index(s, p).Some?
  }

  lemma CharAt(s: string, p: string, k: int, j: nat)
    requires OccursAt(s, p, k) && j < |p|
    ensures s[k + j] == p[j]
  {
    assert s[k..k + |p|][j] == s[k + j];
  }

  /** An occurrence brings every character with it. */
  lemma OccursHas(t: string, p: string, j: nat)
    requires j < |p|
    ensures Occurs(t, p) ==> p[j] in t
  {
    if k :| OccursAt(t, p, k) {
      CharAt(t, p, k, j);
    }
  }

  lemma OccursInFront(a: string, b: string, p: string)
    requires Occurs(a, p)
    ensures Occurs(a + b, p)
  {
    var k :| OccursAt(a, p, k);
    assert (a + b)[k..k + |p|] == a[k..k + |p|];
    assert OccursAt(a + b, p, k);
  }

  lemma OccursBehind(a: string, b: string, p: string)
    requires Occurs(b, p)
    ensures Occurs(a + b, p)
  {
    var k :| OccursAt(b, p, k);
    assert (a + b)[|a| + k..|a| + k + |p|] == b[k..k + |p|];
    assert OccursAt(a + b, p, |a| + k);
  }

  lemma JoinedAt(a: string, b: string, m: nat)
    requires m < |a| + |b|
    ensures (a + b)[m] == if m < |a| then a[m] else b[m - |a|]
  {
  }

  lemma OccursBefore(a: string, b: string, p: string)
    requires p != "" && p[|p| - 1] !in b
    ensures Occurs(a + b, p) <==> Occurs(a, p)
  {
    if Occurs(a, p) {
      OccursInFront(a, b, p);
    }
    if k :| OccursAt(a + b, p, k) {
      var m := k + |p| - 1;
      assert (a + b)[k..k + |p|][|p| - 1] == (a + b)[m];
      JoinedAt(a, b, m);
      assert a[k..k + |p|] == (a + b)[k..k + |p|];
      assert OccursAt(a, p, k);
    }
  }

  lemma OccursAfter(a: string, b: string, p: string)
    requires p != "" && p[0] !in a
    ensures Occurs(a + b, p) <==> Occurs(b, p)
  {
    if Occurs(b, p) {
      OccursBehind(a, b, p);
    }
    if k :| OccursAt(a + b, p, k) {
      assert (a + b)[k..k + |p|][0] == (a + b)[k];
      JoinedAt(a, b, k);
      assert b[k - |a|..k - |a| + |p|] == (a + b)[k..k + |p|];
      assert OccursAt(b, p, k - |a|);
    }
  }

  /** An occurrence that misses the character at `cut` lies wholly before it or wholly after it. */
  lemma OccursAround(a: string, c: char, b: string, p: string)
    requires c !in p && Occurs(a + [c] + b, p)
    ensures Occurs(a, p) || Occurs(b, p)
  {
    var s := a + [c] + b;
    var k :| OccursAt(s, p, k);
    forall m | k <= m < k + |p|
      ensures s[m] != c
    {
      assert p[m - k] == s[m];
    }
    assert s[|a|] == c;
    if k + |p| <= |a| {
      assert a[k..k + |p|] == s[k..k + |p|];
      assert OccursAt(a, p, k);
    } else {
      var j := k - |a| - 1;
      assert b[j..j + |p|] == s[k..k + |p|];
      assert OccursAt(b, p, j);
    }
  }

  // ── replacing ──

  /** strings.ReplaceAll, for a non-empty `old`: leftmost occurrences, none overlapping. */
  function ReplaceAll(s: string, old_: string, new_: string): string
    requires old_ != ""
  {
    if |s| < |old_| then s
    else if old_ <= s then new_ + ReplaceAll(s[|old_|..], old_, new_)
    else [s[0]] + ReplaceAll(s[1..], old_, new_)
  }

  lemma ReplaceShort(s: string, old_: string, new_: string)
    requires old_ != "" && |s| < |old_|
    ensures ReplaceAll(s, old_, new_) == s
  {
  }

  lemma ReplaceOne(c: char, rest: string, q: char, esc: string)
    ensures ReplaceAll([c] + rest, [q], esc) == (if c == q then esc else [c]) + ReplaceAll(rest, [q], esc)
  {
    var s := [c] + rest;
    assert s[1..] == rest;
    assert [q] <= s <==> s[..1] == [q];
  }

  /** Escaping one character by a longer spelling that begins with it can be read back. */
  lemma {:induction false} UnescapeEscape(s: string, q: char, esc: string)
    requires |esc| >= 2 && esc[0] == q
    ensures ReplaceAll(ReplaceAll(s, [q], esc), esc, [q]) == s
  {
    if s != "" {
      var rest := ReplaceAll(s[1..], [q], esc);
      UnescapeEscape(s[1..], q, esc);
      assert s == [s[0]] + s[1..];
      ReplaceOne(s[0], s[1..], q, esc);
      if s[0] == q {
        assert (esc + rest)[|esc|..] == rest;
        assert ReplaceAll(esc + rest, esc, [q]) == [q] + s[1..];
      } else {
        assert ([s[0]] + rest)[1..] == rest;
        if |rest| + 1 < |esc| {
          ReplaceShort(rest, esc, [q]);
        } else {
          assert !(esc <= [s[0]] + rest);
        }
      }
    }
  }

  /** Where `q` does not occur there is nothing to replace. */
  lemma {:induction false} ReplaceNothing(s: string, old_: string, new_: string)
    requires old_ != "" && old_[0] !in s
    ensures ReplaceAll(s, old_, new_) == s
  {
    if |s| >= |old_| {
      assert s[0] != old_[0];
      ReplaceNothing(s[1..], old_, new_);
    }
  }

  // ── trimming ──

  function TrimLeft(s: string, cut: set<char>): (r: string)
    ensures |r| <= |s|
  {
    if s != "" && s[0] in cut then TrimLeft(s[1..], cut) else s
  }

  function TrimRight(s: string, cut: set<char>): (r: string)
    ensures |r| <= |s|
  {
    if s != "" && s[|s| - 1] in cut then TrimRight(s[..|s| - 1], cut) else s
  }

  lemma {:induction false} TrimLeftTakes(s: string, cut: set<char>)
    ensures var r := TrimLeft(s, cut); r == s[|s| - |r|..] && (r != "" ==> r[0] !in cut)
    ensures forall k :: 0 <= k < |s| - |TrimLeft(s, cut)| ==> s[k] in cut
  {
    if s != "" && s[0] in cut {
      TrimLeftTakes(s[1..], cut);
    }
  }

  lemma {:induction false} TrimRightTakes(s: string, cut: set<char>)
    ensures var r := TrimRight(s, cut); r == s[..|r|] && (r != "" ==> r[|r| - 1] !in cut)
    ensures forall k :: |TrimRight(s, cut)| <= k < |s| ==> s[k] in cut
  {
    if s != "" && s[|s| - 1] in cut {
      TrimRightTakes(s[..|s| - 1], cut);
    }
  }

  /** The characters unicode.IsSpace holds of. */
  const SPACES: set<char> := {'\t', '\n', '\U{0B}', '\U{0C}', '\r', ' ', '\U{85}', '\U{A0}', '\U{1680}',
                              '\U{2000}', '\U{2001}', '\U{2002}', '\U{2003}', '\U{2004}', '\U{2005}', '\U{2006}',
                              '\U{2007}', '\U{2008}', '\U{2009}', '\U{200A}', '\U{2028}', '\U{2029}', '\U{202F}',
                              '\U{205F}', '\U{3000}'}

  function TrimSpace(s: string): string {
    TrimRight(TrimLeft(s, SPACES), SPACES)
  }

  lemma TrimLeftOnly(a: string, s: string, cut: set<char>)
    requires (forall c :: c in a ==> c in cut) && s != "" && s[0] !in cut
    ensures TrimLeft(a + s, cut) == s
  {
    if a == "" {
      assert a + s == s;
    } else {
      assert (a + s)[1..] == a[1..] + s;
      TrimLeftOnly(a[1..], s, cut);
    }
  }

  lemma TrimRightOnly(s: string, b: string, cut: set<char>)
    requires (forall c :: c in b ==> c in cut) && (s != "" ==> s[|s| - 1] !in cut)
    ensures TrimRight(s + b, cut) == s
  {
    if b == "" {
      assert s + b == s;
    } else {
      assert (s + b)[..|s + b| - 1] == s + b[..|b| - 1];
      TrimRightOnly(s, b[..|b| - 1], cut);
    }
  }

  function TrimSuffix(s: string, p: string): string {
    if |p| <= |s| && s[|s| - |p|..] == p then s[..|s| - |p|] else s
  }

  // ── joining and splitting ──

  function Concat(parts: seq<string>): string {
    if parts == [] then "" else parts[0] + Concat(parts[1..])
  }

  lemma ConcatAppend(a: seq<string>, b: seq<string>)
    ensures Concat(a + b) == Concat(a) + Concat(b)
  {
    if a == [] {
      assert a + b == b;
    } else {
      assert (a + b)[1..] == a[1..] + b;
      ConcatAppend(a[1..], b);
    }
  }

  /** strings.Join. */
  function Join(parts: seq<string>, sep: string): string {
    if parts == [] then ""
    else if |parts| == 1 then parts[0]
    else parts[0] + sep + Join(parts[1..], sep)
  }

  /** strings.SplitAfter on line feeds, without the empty last piece. */
  function SplitLines(s: string): (r: seq<string>)
    ensures Concat(r) == s
    ensures forall k :: 0 <= k < |r| ==> IsLine(r[k]) && (k < |r| - 1 ==> Ended(r[k]))
  {
    if s == "" then []
    else
      var k := Index(s, "\n");
      if k.None? then
        assert forall i :: 0 <= i < |s| && s[i] == '\n' ==> OccursAt(s, "\n", i);
        [s]
      else
        assert forall i :: 0 <= i < k.value && s[i] == '\n' ==> OccursAt(s, "\n", i);
        assert s == s[..k.value + 1] + s[k.value + 1..];
        [s[..k.value + 1]] + SplitLines(s[k.value + 1..])
  }

  /** One raw line: a line feed, if any, only at its end. */
  predicate IsLine(l: string) {
    l != "" && '\n' !in l[..|l| - 1]
  }

  predicate Ended(l: string) {
    l != "" && l[|l| - 1] == '\n'
  }

  predicate AreLines(ls: seq<string>) {
    forall k :: 0 <= k < |ls| ==> IsLine(ls[k]) && (k < |ls| - 1 ==> Ended(ls[k]))
  }

  /** Lines are what splitting their concatenation gives back. */
  lemma {:induction false} SplitConcat(ls: seq<string>)
    requires AreLines(ls)
    ensures SplitLines(Concat(ls)) == ls
  {
    if ls != [] {
      assert AreLines(ls[1..]);
      SplitConcat(ls[1..]);
      if Ended(ls[0]) {
        SplitFirst(ls[0], Concat(ls[1..]));
      } else {
        assert ls == [ls[0]] && ls[1..] == [];
        SplitLast(ls[0]);
      }
    }
  }

  lemma SplitFirst(l: string, rest: string)
    requires IsLine(l) && Ended(l)
    ensures SplitLines(l + rest) == [l] + SplitLines(rest)
  {
    var s := l + rest;
    assert OccursAt(s, "\n", |l| - 1);
    forall k | 0 <= k < |l| - 1
      ensures s[k] != '\n'
    {
      assert l[..|l| - 1][k] == s[k];
    }
    assert forall k :: OccursAt(s, "\n", k) ==> s[k] == '\n';
    assert Index(s, "\n") == Some(|l| - 1);
    assert s[..|l|] == l && s[|l|..] == rest;
  }

  lemma SplitLast(l: string)
    requires IsLine(l) && !Ended(l)
    ensures SplitLines(l) == [l]
  {
    forall k | 0 <= k < |l| - 1
      ensures l[k] != '\n'
    {
      assert l[..|l| - 1][k] == l[k];
    }
    assert forall k :: OccursAt(l, "\n", k) ==> l[k] == '\n';
  }

  // ── case ──

  /** Simple case folding, where it reaches the letters of an ASCII word. */
  function Fold(c: char): char {
    if 'A' <= c <= 'Z' then ((c as int) + 32) as char
    else if c == '\U{017F}' then 's'
    else if c == '\U{212A}' then 'k'
    else c
  }

  predicate EqualFold(a: string, b: string) {
    |a| == |b| && forall k :: 0 <= k < |a| ==> Fold(a[k]) == Fold(b[k])
  }
}
