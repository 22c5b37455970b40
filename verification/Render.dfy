/** Output held to a byte budget, and cut only between characters. */
module Render {
  import opened Utf8

  function Scalars(s: string): (r: seq<Scalar>)
    ensures |r| == |s| && forall k :: 0 <= k < |s| ==> r[k] == s[k] as int
  {
    seq(|s|, k requires 0 <= k < |s| => s[k] as int)
  }

  const ELLIPSIS: Scalar := 0x2026

  /** renderTruncationNotice. */
  const NOTICE_TEXT: seq<Scalar> :=
    Scalars("\n") + [ELLIPSIS] + Scalars("(output cap reached; use -format json, ") +
      Scalars("or search --stdin, for the rest)\n")

  const NOTICE: seq<Byte> := EncodeAll(NOTICE_TEXT)

  // ── where text may be cut ──

  /** utf8.RuneStart. */
  predicate RuneStart(b: Byte) {
    !Continues(b)
  }

  /** The last place at or before `n` where a character begins, or the front. */
  function CutRune(s: seq<Byte>, n: nat): (cut: nat)
    requires n < |s|
    ensures cut <= n && (cut == 0 || RuneStart(s[cut])) && forall k :: cut < k <= n ==> !RuneStart(s[k])
  {
    if n == 0 || RuneStart(s[n]) then n else CutRune(s, n - 1)
  }

  method FindCut(s: seq<Byte>, n: nat) returns (cut: nat)
    requires n < |s|
    ensures cut == CutRune(s, n)
  {
    cut := n;
    while cut > 0 && !RuneStart(s[cut])
      invariant cut <= n && CutRune(s, n) == CutRune(s, cut)
    {
      cut := cut - 1;
    }
  }

  /** Only what follows matters, as long as something before it can be cut at. */
  lemma CutBehind(a: seq<Byte>, s: seq<Byte>, n: nat)
    requires |a| <= n < |a| + |s| && RuneStart(s[0])
    ensures CutRune(a + s, n) == |a| + CutRune(s, n - |a|)
  {
    assert forall k :: |a| <= k <= n ==> (a + s)[k] == s[k - |a|];
    var d := CutRune(s, n - |a|);
    assert RuneStart((a + s)[|a| + d]);
  }

  /** And nothing after it does. */
  lemma CutBefore(s: seq<Byte>, more: seq<Byte>, n: nat)
    requires n < |s|
    ensures CutRune(s + more, n) == CutRune(s, n)
  {
    var c, d := CutRune(s + more, n), CutRune(s, n);
    assert (s + more)[d] == s[d] && (s + more)[c] == s[c];
  }

  /** How many characters of `t` fit in `n` bytes. */
  function Fits(t: seq<Scalar>, n: nat): (k: nat)
    ensures k <= |t|
  {
    if t == [] || |Encode(t[0])| > n then 0 else 1 + Fits(t[1..], n - |Encode(t[0])|)
  }

  lemma {:induction false} FitsMeans(t: seq<Scalar>, n: nat)
    ensures var k := Fits(t, n); |EncodeAll(t[..k])| <= n && (k < |t| ==> |EncodeAll(t[..k + 1])| > n)
  {
    var k := Fits(t, n);
    if t == [] || |Encode(t[0])| > n {
      assert t[..0] == [];
      if t != [] {
        EncodeFirst(t, 1);
      }
    } else {
      FitsMeans(t[1..], n - |Encode(t[0])|);
      EncodeFirst(t, k);
      if k < |t| {
        EncodeFirst(t, k + 1);
      }
    }
  }

  lemma EncodeFirst(t: seq<Scalar>, k: nat)
    requires 0 < k <= |t|
    ensures EncodeAll(t[..k]) == Encode(t[0]) + EncodeAll(t[1..][..k - 1])
  {
    assert t[..k][0] == t[0] && t[..k][1..] == t[1..][..k - 1];
  }

  /** A character begins with its first byte and nowhere else. */
  lemma EncodeStarts(c: Scalar)
    ensures 0 < |Encode(c)| <= 4 && RuneStart(Encode(c)[0])
    ensures forall k :: 0 < k < |Encode(c)| ==> !RuneStart(Encode(c)[k])
  {
  }

  lemma {:induction false} EncodeAllAppend(a: seq<Scalar>, b: seq<Scalar>)
    ensures EncodeAll(a + b) == EncodeAll(a) + EncodeAll(b)
  {
    hide Encode;
    if a == [] {
      assert a + b == b;
    } else {
      assert (a + b)[0] == a[0] && (a + b)[1..] == a[1..] + b;
      EncodeAllAppend(a[1..], b);
    }
  }

  lemma StartsWithRune(t: seq<Scalar>)
    ensures EncodeAll(t) != [] ==> RuneStart(EncodeAll(t)[0])
  {
    if t != [] {
      EncodeStarts(t[0]);
    }
  }

  /** Cutting bytes back to a character's first one keeps whole characters: all that fit. */
  lemma {:induction false} CutKeepsCharacters(t: seq<Scalar>, n: nat)
    requires n < |EncodeAll(t)|
    ensures EncodeAll(t)[..CutRune(EncodeAll(t), n)] == EncodeAll(t[..Fits(t, n)])
  {
    hide Encode;
    var first, rest := Encode(t[0]), EncodeAll(t[1..]);
    EncodeStarts(t[0]);
    if |first| > n {
      assert forall k :: 0 < k <= n ==> (first + rest)[k] == first[k];
      assert t[..0] == [];
    } else {
      StartsWithRune(t[1..]);
      CutBehind(first, rest, n);
      CutKeepsCharacters(t[1..], n - |first|);
      EncodeFirst(t, Fits(t, n));
      var c := CutRune(rest, n - |first|);
      assert (first + rest)[..|first| + c] == first + rest[..c];
    }
  }

  // ── the budget ──

  /** What the notice leaves of the budget. */
  function Room(total: nat): nat {
    if total < |NOTICE| then 0 else total - |NOTICE|
  }

  /** The text itself where it fits, else its beginning and the notice. */
  function Bounded(whole: seq<Byte>, max: nat): seq<Byte> {
    if |whole| <= max then whole else whole[..CutRune(whole, max)] + NOTICE
  }

  /** The write that does not fit is cut where the whole text would be. */
  lemma CutHere(a: seq<Byte>, s: seq<Byte>, max: nat)
    requires |a| <= max < |a| + |s|
    ensures a + s[..CutRune(s, max - |a|)] == (a + s)[..|a| + CutRune(s, max - |a|)]
    ensures RuneStart(s[0]) ==> CutRune(a + s, max) == |a| + CutRune(s, max - |a|)
  {
    hide RuneStart, CutRune;
    if RuneStart(s[0]) {
      CutBehind(a, s, max);
    }
  }

  class CappedBuilder {
    var b: seq<Byte>
    var full: bool
    const max: nat

    /** Everything written so far, had there been no budget; how much of it stands; and whether
        every piece of it began with a character. */
    ghost var whole: seq<Byte>
    ghost var kept: nat
    ghost var aligned: bool

    ghost predicate Valid()
      reads this
    {
      && kept <= max && kept <= |whole|
      && (full <==> |whole| > max)
      && (!full ==> b == whole)
      && (full ==> b == whole[..kept] + NOTICE && (aligned ==> kept == CutRune(whole, max)))
    }

    constructor (total: nat)
      ensures Valid() && max == Room(total) && whole == [] && aligned
    {
      b, full, max := [], false, Room(total);
      whole, kept, aligned := [], 0, true;
    }

    method WriteString(s: seq<Byte>)
      requires Valid()
      modifies this
      ensures Valid() && whole == old(whole) + s
      ensures aligned == (old(aligned) && (s == [] || RuneStart(s[0])))
    {
      hide Encode, EncodeAll, RuneStart, CutRune;
      ghost var before := whole;
      whole, aligned := whole + s, aligned && (s == [] || RuneStart(s[0]));
      if full {
        CutBefore(before, s, max);
        assert whole[..kept] == before[..kept];
        return;
      }
      if |b| + |s| <= max {
        b := b + s;
        return;
      }
      var room := max - |b|;
      if room > 0 {
        var cut := FindCut(s, room);
        b := b + s[..cut];
      }
      kept := |b|;
      CutHere(before, s, max);
      b, full := b + NOTICE, true;
    }

    /** The text written so far. */
    ghost predicate Holds(t: seq<Scalar>)
      reads this
    {
      Valid() && aligned && whole == EncodeAll(t)
    }

    /** printf, its arguments already in place. */
    method Print(s: seq<Scalar>, ghost t: seq<Scalar>)
      requires Holds(t)
      modifies this
      ensures Holds(t + s)
    {
      hide Encode, EncodeAll, RuneStart;
      StartsWithRune(s);
      EncodeAllAppend(t, s);
      WriteString(EncodeAll(s));
    }

    /** What comes out depends on the text alone, however it was cut into writes. */
    method String() returns (text: seq<Byte>)
      requires Valid()
      ensures aligned ==> text == Bounded(whole, max)
      ensures text == whole ||
              (|whole| > max && exists k :: 0 <= k <= |whole| && k <= max && text == whole[..k] + NOTICE)
    {
      text := b;
    }
  }

  /** The budget holds, notice and all, exactly when it has room for the notice. */
  lemma WithinBudget(total: nat)
    ensures (forall whole: seq<Byte> :: |Bounded(whole, Room(total))| <= total) <==> |NOTICE| <= total
  {
    if total < |NOTICE| {
      assert |Bounded([0x41], Room(total))| > total;
    }
  }

  /** What comes out is UTF-8: the text, or as many of its first characters as fit and then the
      notice, which is there exactly when something was cut. */
  lemma BoundedText(t: seq<Scalar>, max: nat)
    ensures Bounded(EncodeAll(t), max) ==
            EncodeAll(if |EncodeAll(t)| <= max then t else t[..Fits(t, max)] + NOTICE_TEXT)
    ensures |EncodeAll(t)| > max ==> Fits(t, max) < |t|
  {
    hide Encode;
    if |EncodeAll(t)| > max {
      CutKeepsCharacters(t, max);
      EncodeAllAppend(t[..Fits(t, max)], NOTICE_TEXT);
      FitsMeans(t, max);
      assert t[..|t|] == t;
    }
  }

  // ── one field ──

  function Truncated(t: seq<Scalar>, max: nat): seq<Scalar> {
    if |EncodeAll(t)| <= max then t else t[..Fits(t, max)] + [ELLIPSIS]
  }

  /** The ellipsis is added on top of what the cut leaves. */
  method TruncateRunes(s: seq<Byte>, max: nat, ghost t: seq<Scalar>) returns (r: seq<Byte>)
    requires s == EncodeAll(t)
    ensures r == EncodeAll(Truncated(t, max))
  {
    hide Encode, EncodeAll;
    if |s| <= max {
      return s;
    }
    var cut := FindCut(s, max);
    CutKeepsCharacters(t, max);
    EncodeAllAppend(t[..Fits(t, max)], [ELLIPSIS]);
    OneCharacter(ELLIPSIS);
    r := s[..cut] + Encode(ELLIPSIS);
  }

  lemma OneCharacter(c: Scalar)
    ensures EncodeAll([c]) == Encode(c)
  {
    assert [c][1..] == [];
  }

  /** So a cut field may pass its bound, by no more than the ellipsis. */
  lemma TruncatedSize(t: seq<Scalar>, max: nat)
    ensures |EncodeAll(Truncated(t, max))| <= max + 3
    ensures Truncated(t, max) == t ||
            (|EncodeAll(t)| > max && exists k :: 0 <= k < |t| && Truncated(t, max) == t[..k] + [ELLIPSIS])
  {
    if |EncodeAll(t)| > max {
      FitsMeans(t, max);
      EncodeAllAppend(t[..Fits(t, max)], [ELLIPSIS]);
      OneCharacter(ELLIPSIS);
      assert t[..|t|] == t;
    }
  }
}
