/** Remote text made fit for a terminal: one line of it, inert, bounded. */
module Terminal {
  import opened Wrappers
  import opened Text
  import opened Utf8
  import opened Render

  /** U+FFFD, utf8.RuneError. */
  const REPLACEMENT: Scalar := 0xFFFD

  predicate UnsafeForTerminal(r: Scalar) {
    || r == REPLACEMENT
    || r < 0x20 || r == 0x7F
    || 0x80 <= r <= 0x9F
    || 0x200E <= r <= 0x200F
    || 0x202A <= r <= 0x202E
    || 0x2066 <= r <= 0x2069
    || r == 0x061C
    || r == 0xFEFF
  }

  /** What may stand on a terminal. */
  predicate Inert(t: seq<Scalar>) {
    forall k :: 0 <= k < |t| ==> t[k] == REPLACEMENT || !UnsafeForTerminal(t[k])
  }

  /** C0, DEL and C1. */
  predicate Control(r: Scalar) {
    r <= 0x1F || 0x7F <= r <= 0x9F
  }

  /** What turns the direction of writing: the marks, embeddings, overrides and isolates. */
  const DIRECTIONAL: set<Scalar> :=
    {0x061C, 0x200E, 0x200F, 0x202A, 0x202B, 0x202C, 0x202D, 0x202E, 0x2066, 0x2067, 0x2068, 0x2069}

  const BYTE_ORDER_MARK: Scalar := 0xFEFF

  /** Inert text is text without control characters, direction marks and byte order marks. */
  lemma InertIff(t: seq<Scalar>)
    ensures Inert(t) <==>
            forall k :: 0 <= k < |t| ==> !Control(t[k]) && t[k] !in DIRECTIONAL && t[k] != BYTE_ORDER_MARK
  {
    forall r: Scalar
      ensures (r == REPLACEMENT || !UnsafeForTerminal(r)) <==>
              !Control(r) && r !in DIRECTIONAL && r != BYTE_ORDER_MARK
    {
    }
    hide UnsafeForTerminal, Control;
  }

  // ── bytes read as characters ──

  /** Ranging over a string: a byte that is not UTF-8 reads as one replacement character. */
  function NextRune(bs: seq<Byte>): (r: (Scalar, nat))
    requires bs != []
    ensures 0 < r.1 <= |bs|
  {
    if DecodeOne(bs).Some? then DecodeOne(bs).value else (REPLACEMENT, 1)
  }

  function Runes(bs: seq<Byte>): seq<Scalar>
    decreases |bs|
  {
    if bs == [] then [] else [NextRune(bs).0] + Runes(bs[NextRune(bs).1..])
  }

  lemma {:induction false} RunesOfText(bs: seq<Byte>)
    requires Decode(bs).Some?
    ensures Runes(bs) == Decode(bs).value
    decreases |bs|
  {
    if bs != [] {
      RunesOfText(bs[NextRune(bs).1..]);
    }
  }

  // ── sanitizeForTerminal ──

  function Shown(r: Scalar): Scalar {
    if UnsafeForTerminal(r) then REPLACEMENT else r
  }

  function ShownAll(t: seq<Scalar>): (r: seq<Scalar>)
    ensures |r| == |t| && forall k :: 0 <= k < |t| ==> r[k] == Shown(t[k])
  {
    seq(|t|, k requires 0 <= k < |t| => Shown(t[k]))
  }

  function Sanitized(bs: seq<Byte>): seq<Byte> {
    EncodeAll(ShownAll(Runes(bs)))
  }

  method SanitizeForTerminal(s: seq<Byte>) returns (r: seq<Byte>)
    ensures r == Sanitized(s)
  {
    hide DecodeOne, Encode, EncodeAll, Decode, UnsafeForTerminal, Sanitized;
    var clean := true;
    var i := 0;
    while i < |s|
      invariant 0 <= i <= |s|
      invariant clean ==> forall u :: u in Runes(s) && UnsafeForTerminal(u) ==> u in Runes(s[i..])
    {
      var rune := NextRune(s[i..]);
      assert s[i..][rune.1..] == s[i + rune.1..];
      if UnsafeForTerminal(rune.0) {
        clean := false;
        break;
      }
      i := i + rune.1;
    }
    if clean && Decode(s).Some? {
      CleanIsShown(s);
      return s;
    }
    r := [];
    i := 0;
    Nothing();
    assert s[0..] == s;
    while i < |s|
      invariant 0 <= i <= |s|
      invariant Sanitized(s) == r + Sanitized(s[i..])
    {
      var rune := NextRune(s[i..]);
      assert s[i..][rune.1..] == s[i + rune.1..];
      SanitizedFirst(s[i..]);
      if UnsafeForTerminal(rune.0) {
        r := r + Encode(REPLACEMENT);
      } else {
        r := r + Encode(rune.0);
      }
      i := i + rune.1;
    }
    assert s[|s|..] == [];
  }

  lemma Nothing()
    ensures Sanitized([]) == []
  {
  }

  lemma SanitizedFirst(s: seq<Byte>)
    requires s != []
    ensures Sanitized(s) == Encode(Shown(NextRune(s).0)) + Sanitized(s[NextRune(s).1..])
  {
    var t, rest := ShownAll(Runes(s)), ShownAll(Runes(s[NextRune(s).1..]));
    assert t[1..] == rest;
  }

  lemma CleanIsShown(s: seq<Byte>)
    requires Decode(s).Some? && forall u :: u in Runes(s) ==> !UnsafeForTerminal(u)
    ensures Sanitized(s) == s
  {
    hide UnsafeForTerminal;
    RunesOfText(s);
    EncodeDecode(s);
    assert ShownAll(Runes(s)) == Runes(s);
  }

  /** Nothing that could steer a terminal is left, no character is added or lost, and doing it
      twice does no more; only text that was inert UTF-8 already comes back as it was. */
  lemma SanitizedIsInert(s: seq<Byte>)
    ensures var r := Sanitized(s);
            && Decode(r) == Some(ShownAll(Runes(s))) && Inert(ShownAll(Runes(s)))
            && Sanitized(r) == r
            && (r == s <==> Decode(s).Some? && Inert(Decode(s).value))
  {
    var t := ShownAll(Runes(s));
    var r := Sanitized(s);
    DecodeEncode(t);
    RunesOfText(r);
    assert ShownAll(t) == t;
    if Decode(s).Some? && Inert(Decode(s).value) {
      RunesOfText(s);
      EncodeDecode(s);
      assert t == Runes(s);
    }
  }

  // ── oneLine ──

  predicate IsSpace(c: Scalar) {
    c as char in SPACES
  }

  /** Where the word at the front ends. */
  function WordEnd(t: seq<Scalar>): (n: nat)
    ensures n <= |t| && (forall k :: 0 <= k < n ==> !IsSpace(t[k])) && (n < |t| ==> IsSpace(t[n]))
  {
    if t == [] || IsSpace(t[0]) then 0 else 1 + WordEnd(t[1..])
  }

  /** strings.Join(strings.Fields(t), " "). */
  function Collapsed(t: seq<Scalar>): seq<Scalar>
    decreases |t|
  {
    if t == [] then []
    else if IsSpace(t[0]) then Collapsed(t[1..])
    else
      var n := WordEnd(t);
      var rest := Collapsed(t[n..]);
      t[..n] + (if rest == [] then [] else [0x20] + rest)
  }

  /** Words with one plain space between each two. */
  predicate Spaced(t: seq<Scalar>) {
    forall k :: 0 <= k < |t| && IsSpace(t[k]) ==>
      t[k] == 0x20 && 0 < k < |t| - 1 && !IsSpace(t[k - 1]) && !IsSpace(t[k + 1])
  }

  lemma {:induction false} CollapsedIsSpaced(t: seq<Scalar>)
    ensures Spaced(Collapsed(t))
    decreases |t|
  {
    hide IsSpace;
    if t != [] {
      var n := WordEnd(t);
      if IsSpace(t[0]) {
        CollapsedIsSpaced(t[1..]);
      } else {
        CollapsedIsSpaced(t[n..]);
        WordThenRest(t[..n], Collapsed(t[n..]));
      }
    }
  }

  lemma WordThenRest(word: seq<Scalar>, rest: seq<Scalar>)
    requires word != [] && (forall k :: 0 <= k < |word| ==> !IsSpace(word[k])) && Spaced(rest)
    ensures Spaced(word + (if rest == [] then [] else [0x20] + rest))
  {
    hide IsSpace;
    var all := word + (if rest == [] then [] else [0x20] + rest);
    forall k | 0 <= k < |all| && IsSpace(all[k])
      ensures all[k] == 0x20 && 0 < k < |all| - 1 && !IsSpace(all[k - 1]) && !IsSpace(all[k + 1])
    {
      assert k >= |word|;
      var j := k - |word| - 1;
      if j >= 0 {
        assert all[k] == rest[j] && all[k - 1] == (if j == 0 then 0x20 else rest[j - 1]);
        assert all[k + 1] == rest[j + 1];
      } else {
        assert all[k - 1] == word[|word| - 1] && all[k + 1] == rest[0];
      }
    }
  }

  /** oneLine, as characters. */
  function OneLine(bs: seq<Byte>, max: nat): seq<Scalar> {
    Truncated(ShownAll(Collapsed(Runes(bs))), max)
  }

  lemma SpaceAndMarks()
    ensures !IsSpace(REPLACEMENT) && !IsSpace(ELLIPSIS) && !UnsafeForTerminal(ELLIPSIS) && !UnsafeForTerminal(0x20)
  {
  }

  lemma ShownIsSpaced(t: seq<Scalar>)
    requires Spaced(t)
    ensures Spaced(ShownAll(t))
  {
    hide IsSpace, UnsafeForTerminal;
    SpaceAndMarks();
    assert forall k :: 0 <= k < |t| && !IsSpace(t[k]) ==> !IsSpace(Shown(t[k]));
  }

  /** Whatever came from the network: one line, inert, and no more than three bytes past its cap. */
  lemma OneLineIsSafe(bs: seq<Byte>, max: nat)
    ensures var t := OneLine(bs, max);
            && Inert(t) && Spaced(t) && |EncodeAll(t)| <= max + 3
  {
    hide EncodeAll, Runes, Collapsed, Truncated, IsSpace, UnsafeForTerminal;
    var t := ShownAll(Collapsed(Runes(bs)));
    CollapsedIsSpaced(Runes(bs));
    ShownIsSpaced(Collapsed(Runes(bs)));
    TruncatedSize(t, max);
    SpaceAndMarks();
  }
}
