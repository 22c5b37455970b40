/** UTF-8 text read a byte at a time in an ANSI code page and encoded again, and the repair. */
module DoubleEncoding {
  import opened Wrappers
  import opened Utf8

  predicate IsAscii(bs: seq<Byte>) {
    forall k :: 0 <= k < |bs| ==> bs[k] < 0x80
  }

  // ── one byte read as one character ──

  datatype CodePage = Latin1 | Cp1252

  /** cp1252's characters for 0x80 to 0x9F; the five bytes it leaves undefined read as Latin-1. */
  const HIGH: seq<Scalar> := [
    0x20AC, 0x81, 0x201A, 0x0192, 0x201E, 0x2026, 0x2020, 0x2021,
    0x02C6, 0x2030, 0x0160, 0x2039, 0x0152, 0x8D, 0x017D, 0x8F,
    0x90, 0x2018, 0x2019, 0x201C, 0x201D, 0x2022, 0x2013, 0x2014,
    0x02DC, 0x2122, 0x0161, 0x203A, 0x0153, 0x9D, 0x017E, 0x0178]

  function ReadByte(page: CodePage, b: Byte): Scalar {
    if page.Cp1252? && 0x80 <= b < 0xA0 then HIGH[b - 0x80] else b
  }

  /** Where a character stands in a table, from `k` on. */
  function IndexIn(table: seq<Scalar>, c: Scalar, k: nat): (r: Option<nat>)
    requires k <= |table|
    ensures r.Some? ==> k <= r.value < |table| && table[r.value] == c
    ensures r.None? ==> forall j :: k <= j < |table| ==> table[j] != c
    decreases |table| - k
  {
    if k == |table| then None else if table[k] == c then Some(k) else IndexIn(table, c, k + 1)
  }

  /** Where a character stands in cp1252's table. */
  function HighAt(c: Scalar): (r: Option<Byte>)
    ensures r.Some? ==> 0x80 <= r.value < 0xA0 && HIGH[r.value - 0x80] == c
    ensures r.None? ==> forall j :: 0 <= j < 32 ==> HIGH[j] != c
  {
    var at := IndexIn(HIGH, c, 0);
    if at.None? then None else Some(0x80 + at.value)
  }

  /** The single byte a character can have been read from. */
  function ByteOf(c: Scalar): Option<Byte> {
    if c <= 0xFF then Some(c) else HighAt(c)
  }

  lemma HighIsOneToOne()
    ensures forall i, j :: 0 <= i < j < 32 ==> HIGH[i] != HIGH[j]
  {
  }

  lemma HighIsHigh()
    ensures forall k :: 0 <= k < 32 ==> HIGH[k] >= 0x80 && (HIGH[k] <= 0xFF ==> HIGH[k] == 0x80 + k)
  {
  }

  /** Whichever page a byte was read in, it is found again. */
  lemma ByteOfRead(page: CodePage, b: Byte)
    ensures ByteOf(ReadByte(page, b)) == Some(b) && (ReadByte(page, b) < 0x80 <==> b < 0x80)
  {
    HighIsOneToOne();
    HighIsHigh();
  }

  /** A character is read from its byte in one of the two pages. */
  lemma ReadOfByte(c: Scalar)
    ensures ByteOf(c).Some? ==> c == ReadByte(Latin1, ByteOf(c).value) || c == ReadByte(Cp1252, ByteOf(c).value)
  {
  }

  function ReadAll(page: CodePage, bs: seq<Byte>): (s: seq<Scalar>)
    ensures |s| == |bs| && forall k :: 0 <= k < |bs| ==> s[k] == ReadByte(page, bs[k])
  {
    seq(|bs|, k requires 0 <= k < |bs| => ReadByte(page, bs[k]))
  }

  function BytesOf(s: seq<Scalar>): (r: Option<seq<Byte>>)
    ensures r.Some? ==> |r.value| == |s|
  {
    if s == [] then Some([])
    else
      var b, rest := ByteOf(s[0]), BytesOf(s[1..]);
      if b.None? || rest.None? then None else Some([b.value] + rest.value)
  }

  lemma {:induction false} BytesOfEach(s: seq<Scalar>)
    ensures BytesOf(s).Some? <==> forall k :: 0 <= k < |s| ==> ByteOf(s[k]).Some?
    ensures BytesOf(s).Some? ==> forall k :: 0 <= k < |s| ==> ByteOf(s[k]) == Some(BytesOf(s).value[k])
  {
    hide ByteOf;
    if s != [] {
      BytesOfEach(s[1..]);
      assert s == [s[0]] + s[1..];
      if ByteOf(s[0]).Some? && BytesOf(s[1..]).Some? {
        forall k | 0 <= k < |s|
          ensures ByteOf(s[k]) == Some(BytesOf(s).value[k])
        {
          assert k > 0 ==> s[k] == s[1..][k - 1] && BytesOf(s).value[k] == BytesOf(s[1..]).value[k - 1];
        }
      } else if ByteOf(s[0]).Some? {
        var k :| 0 <= k < |s[1..]| && ByteOf(s[1..][k]).None?;
        assert ByteOf(s[k + 1]).None?;
      }
    }
  }

  // ── the repair ──

  /** The text and whether it was repaired. */
  function Undo(raw: seq<Byte>): (seq<Byte>, bool) {
    if IsAscii(raw) || Decode(raw).None? then (raw, false)
    else
      var bytes := BytesOf(Decode(raw).value);
      if bytes.None? || Decode(bytes.value).None? then (raw, false) else (bytes.value, true)
  }

  lemma BytesOfAre(s: seq<Scalar>, bs: seq<Byte>)
    requires |bs| == |s| && forall k :: 0 <= k < |s| ==> ByteOf(s[k]) == Some(bs[k])
    ensures BytesOf(s) == Some(bs)
  {
    hide ByteOf, BytesOf;
    BytesOfEach(s);
    assert BytesOf(s).value == bs;
  }

  lemma BytesOfAppend(s: seq<Scalar>, i: nat)
    requires i < |s|
    ensures BytesOf(s[..i]).Some? && ByteOf(s[i]).Some? ==>
              BytesOf(s[..i + 1]) == Some(BytesOf(s[..i]).value + [ByteOf(s[i]).value])
    ensures ByteOf(s[i]).None? ==> BytesOf(s).None?
  {
    hide ByteOf, BytesOf;
    BytesOfEach(s[..i]);
    BytesOfEach(s);
    if BytesOf(s[..i]).Some? && ByteOf(s[i]).Some? {
      var bs := BytesOf(s[..i]).value + [ByteOf(s[i]).value];
      forall k | 0 <= k < i + 1
        ensures ByteOf(s[..i + 1][k]) == Some(bs[k])
      {
        assert k < i ==> s[..i + 1][k] == s[..i][k];
      }
      BytesOfAre(s[..i + 1], bs);
    }
  }

  lemma BytesOfNone()
    ensures BytesOf([]) == Some([])
  {
  }

  method UndoDoubleEncoding(raw: seq<Byte>) returns (text: seq<Byte>, repaired: bool)
    ensures (text, repaired) == Undo(raw)
  {
    hide Decode, IsAscii, ByteOf, BytesOf;
    BytesOfNone();
    var s := Decode(raw);
    if IsAscii(raw) || s.None? {
      return raw, false;
    }
    var b: seq<Byte> := [];
    var i := 0;
    assert s.value[..0] == [];
    while i < |s.value|
      invariant 0 <= i <= |s.value| && BytesOf(s.value[..i]) == Some(b)
    {
      var c := ByteOf(s.value[i]);
      BytesOfAppend(s.value, i);
      if c.None? {
        return raw, false;
      }
      b := b + [c.value];
      i := i + 1;
    }
    assert s.value[..|s.value|] == s.value;
    if Decode(b).None? {
      return raw, false;
    }
    return b, true;
  }

  lemma {:induction false} AsciiEncodes(s: seq<Scalar>)
    ensures IsAscii(EncodeAll(s)) <==> forall k :: 0 <= k < |s| ==> s[k] < 0x80
  {
    if s != [] {
      AsciiEncodes(s[1..]);
      var a, b := Encode(s[0]), EncodeAll(s[1..]);
      assert (a + b)[0] == a[0];
      if IsAscii(a + b) {
        forall k | 0 <= k < |b|
          ensures b[k] < 0x80
        {
          assert (a + b)[|a| + k] == b[k];
        }
      }
    }
  }

  /** What a host's shell does to text on its way here. */
  function Garbled(page: CodePage, text: seq<Scalar>): seq<Byte> {
    EncodeAll(ReadAll(page, EncodeAll(text)))
  }

  /** A left inverse: every text that is not plain ASCII, garbled in either code page, comes back
      exactly. */
  lemma UndoGarbled(page: CodePage, text: seq<Scalar>)
    requires !IsAscii(EncodeAll(text))
    ensures Undo(Garbled(page, text)) == (EncodeAll(text), true)
  {
    hide Decode, ByteOf, BytesOf, ReadByte, IsAscii, EncodeAll;
    var bs := EncodeAll(text);
    var chars := ReadAll(page, bs);
    forall k | 0 <= k < |bs|
      ensures ByteOf(chars[k]) == Some(bs[k]) && (chars[k] < 0x80 <==> bs[k] < 0x80)
    {
      ByteOfRead(page, bs[k]);
    }
    BothAscii(chars, bs);
    DecodeEncode(chars);
    BytesOfAre(chars, bs);
    DecodeEncode(text);
  }

  /** It repairs exactly the texts of that shape, byte for byte in either page, and hands every
      other back as it was; and what it hands back repaired is UTF-8. */
  lemma UndoExactly(raw: seq<Byte>, text: seq<Byte>)
    ensures Undo(raw) == (text, true) <==>
            && Decode(text).Some? && !IsAscii(text)
            && exists chars: seq<Scalar> :: raw == EncodeAll(chars) && |chars| == |text| &&
                 forall k :: 0 <= k < |text| ==>
                   chars[k] == ReadByte(Latin1, text[k]) || chars[k] == ReadByte(Cp1252, text[k])
    ensures !Undo(raw).1 ==> Undo(raw).0 == raw
  {
    hide Decode, ByteOf, BytesOf, ReadByte, IsAscii;
    if Undo(raw) == (text, true) {
      var chars := Decode(raw).value;
      EncodeDecode(raw);
      BytesOfEach(chars);
      forall k | 0 <= k < |text|
        ensures chars[k] == ReadByte(Latin1, text[k]) || chars[k] == ReadByte(Cp1252, text[k])
        ensures chars[k] < 0x80 <==> text[k] < 0x80
      {
        ReadOfByte(chars[k]);
        ByteOfRead(Latin1, text[k]);
        ByteOfRead(Cp1252, text[k]);
      }
      BothAscii(chars, text);
    }
    if Decode(text).Some? && !IsAscii(text) {
      forall chars: seq<Scalar> |
        raw == EncodeAll(chars) && |chars| == |text| &&
        forall k :: 0 <= k < |text| ==> chars[k] == ReadByte(Latin1, text[k]) || chars[k] == ReadByte(Cp1252, text[k])
        ensures Undo(raw) == (text, true)
      {
        ShapeIsUndone(raw, text, chars);
      }
    }
  }

  lemma BothAscii(chars: seq<Scalar>, text: seq<Byte>)
    requires |chars| == |text| && forall k :: 0 <= k < |text| ==> (chars[k] < 0x80 <==> text[k] < 0x80)
    ensures IsAscii(EncodeAll(chars)) <==> IsAscii(text)
  {
    AsciiEncodes(chars);
  }

  lemma ShapeIsUndone(raw: seq<Byte>, text: seq<Byte>, chars: seq<Scalar>)
    requires Decode(text).Some? && !IsAscii(text) && raw == EncodeAll(chars) && |chars| == |text|
    requires forall k :: 0 <= k < |text| ==>
             chars[k] == ReadByte(Latin1, text[k]) || chars[k] == ReadByte(Cp1252, text[k])
    ensures Undo(raw) == (text, true)
  {
    hide Decode, ByteOf, BytesOf, ReadByte, IsAscii, EncodeAll;
    forall k | 0 <= k < |text|
      ensures ByteOf(chars[k]) == Some(text[k]) && (chars[k] < 0x80 <==> text[k] < 0x80)
    {
      ByteOfRead(Latin1, text[k]);
      ByteOfRead(Cp1252, text[k]);
    }
    BothAscii(chars, text);
    DecodeEncode(chars);
    BytesOfAre(chars, text);
  }
}
