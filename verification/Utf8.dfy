/** UTF-8, as section 3 of RFC 3629 defines it. */
module Utf8 {
  import opened Wrappers

  type Byte = b: int | 0 <= b < 0x100

  /** A Unicode scalar value. */
  type Scalar = c: int | 0 <= c < 0xD800 || 0xE000 <= c < 0x11_0000

  function Encode(c: Scalar): seq<Byte> {
    if c < 0x80 then [c]
    else if c < 0x800 then [0xC0 + c / 0x40, 0x80 + c % 0x40]
    else if c < 0x1_0000 then [0xE0 + c / 0x1000, 0x80 + c / 0x40 % 0x40, 0x80 + c % 0x40]
    else [0xF0 + c / 0x4_0000, 0x80 + c / 0x1000 % 0x40, 0x80 + c / 0x40 % 0x40, 0x80 + c % 0x40]
  }

  function EncodeAll(s: seq<Scalar>): seq<Byte> {
    if s == [] then [] else Encode(s[0]) + EncodeAll(s[1..])
  }

  predicate Continues(b: Byte) {
    0x80 <= b < 0xC0
  }

  /** A character only in the length it needs, and never a surrogate. */
  function Scaled(n: int, least: nat, length: nat): Option<(Scalar, nat)>
    requires n >= 0
  {
    if least <= n < 0xD800 || (least <= n && 0xE000 <= n < 0x11_0000) then Some((n, length)) else None
  }

  function Digits2(a: nat, b: nat): nat {
    a * 0x40 + b
  }

  function Digits3(a: nat, b: nat, c: nat): nat {
    Digits2(a, b) * 0x40 + c
  }

  function Digits4(a: nat, b: nat, c: nat, d: nat): nat {
    Digits3(a, b, c) * 0x40 + d
  }

  /** The character at the front, and how many bytes it takes. */
  function DecodeOne(bs: seq<Byte>): (r: Option<(Scalar, nat)>)
    requires bs != []
    ensures r.Some? ==> 0 < r.value.1 <= |bs|
  {
    if bs[0] < 0x80 then Some((bs[0], 1))
    else if 0xC0 <= bs[0] < 0xE0 && |bs| > 1 && Continues(bs[1]) then
      Scaled(Digits2(bs[0] as int - 0xC0, bs[1] as int - 0x80), 0x80, 2)
    else if 0xE0 <= bs[0] < 0xF0 && |bs| > 2 && Continues(bs[1]) && Continues(bs[2]) then
      Scaled(Digits3(bs[0] as int - 0xE0, bs[1] as int - 0x80, bs[2] as int - 0x80), 0x800, 3)
    else if 0xF0 <= bs[0] < 0xF8 && |bs| > 3 && Continues(bs[1]) && Continues(bs[2]) && Continues(bs[3]) then
      Scaled(Digits4(bs[0] as int - 0xF0, bs[1] as int - 0x80, bs[2] as int - 0x80, bs[3] as int - 0x80), 0x1_0000, 4)
    else None
  }

  function Decode(bs: seq<Byte>): Option<seq<Scalar>>
    decreases |bs|
  {
    if bs == [] then Some([])
    else
      var one := DecodeOne(bs);
      if one.None? then None
      else
        var rest := Decode(bs[one.value.1..]);
        if rest.None? then None else Some([one.value.0] + rest.value)
  }

  lemma Splits(n: nat, a: nat, b: nat)
    requires b < 0x40
    ensures n == a * 0x40 + b <==> a == n / 0x40 && b == n % 0x40
  {
  }

  lemma Quotients(n: nat)
    ensures n / 0x40 / 0x40 == n / 0x1000 && n / 0x1000 / 0x40 == n / 0x4_0000
  {
  }

  lemma DecodeOneEncode(c: Scalar, rest: seq<Byte>)
    ensures DecodeOne(Encode(c) + rest) == Some((c, |Encode(c)|))
  {
    Quotients(c);
    Splits(c, c / 0x40, c % 0x40);
    Splits(c / 0x40, c / 0x1000, c / 0x40 % 0x40);
    Splits(c / 0x1000, c / 0x4_0000, c / 0x1000 % 0x40);
  }

  /** Text survives being written and read. */
  lemma {:induction false} DecodeEncode(s: seq<Scalar>)
    ensures Decode(EncodeAll(s)) == Some(s)
  {
    if s != [] {
      var rest := EncodeAll(s[1..]);
      DecodeEncode(s[1..]);
      DecodeOneEncode(s[0], rest);
      assert (Encode(s[0]) + rest)[|Encode(s[0])|..] == rest;
      assert s == [s[0]] + s[1..];
    }
  }

  lemma Two(bs: seq<Byte>, c: Scalar)
    requires |bs| == 2 && 0xC0 <= bs[0] < 0xE0 && Continues(bs[1]) && 0x80 <= c
    requires c == Digits2(bs[0] as int - 0xC0, bs[1] as int - 0x80)
    ensures bs == Encode(c)
  {
    Splits(c, bs[0] as int - 0xC0, bs[1] as int - 0x80);
  }

  lemma Three(bs: seq<Byte>, c: Scalar)
    requires |bs| == 3 && 0xE0 <= bs[0] < 0xF0 && Continues(bs[1]) && Continues(bs[2]) && 0x800 <= c
    requires c == Digits3(bs[0] as int - 0xE0, bs[1] as int - 0x80, bs[2] as int - 0x80)
    ensures bs == Encode(c)
  {
    var a, b, d := bs[0] as int - 0xE0, bs[1] as int - 0x80, bs[2] as int - 0x80;
    Splits(c, Digits2(a, b), d);
    Splits(Digits2(a, b), a, b);
    Quotients(c);
  }

  lemma Four(bs: seq<Byte>, c: Scalar)
    requires |bs| == 4 && 0xF0 <= bs[0] < 0xF8 && Continues(bs[1]) && Continues(bs[2]) && Continues(bs[3]) &&
             0x1_0000 <= c
    requires c == Digits4(bs[0] as int - 0xF0, bs[1] as int - 0x80, bs[2] as int - 0x80, bs[3] as int - 0x80)
    ensures bs == Encode(c)
  {
    var a, b, d, e := bs[0] as int - 0xF0, bs[1] as int - 0x80, bs[2] as int - 0x80, bs[3] as int - 0x80;
    Splits(c, Digits3(a, b, d), e);
    Splits(Digits3(a, b, d), Digits2(a, b), d);
    Splits(Digits2(a, b), a, b);
    Quotients(c);
  }

  lemma EncodeDecodeOne(bs: seq<Byte>)
    requires bs != [] && DecodeOne(bs).Some?
    ensures bs[..DecodeOne(bs).value.1] == Encode(DecodeOne(bs).value.0)
  {
    hide Digits2, Digits3, Digits4, Encode;
    var c, n := DecodeOne(bs).value.0, DecodeOne(bs).value.1;
    if n == 1 {
      One(bs[0]);
      assert bs[..1] == [bs[0]];
    } else if n == 2 {
      Two(bs[..2], c);
    } else if n == 3 {
      Three(bs[..3], c);
    } else {
      Four(bs[..4], c);
    }
  }

  lemma One(b: Byte)
    requires b < 0x80
    ensures Encode(b) == [b]
  {
  }

  /** And no two byte sequences are the same text. */
  lemma {:induction false} EncodeDecode(bs: seq<Byte>)
    requires Decode(bs).Some?
    ensures EncodeAll(Decode(bs).value) == bs
    decreases |bs|
  {
    if bs != [] {
      var n := DecodeOne(bs).value.1;
      EncodeDecode(bs[n..]);
      EncodeDecodeOne(bs);
      assert bs == bs[..n] + bs[n..];
      assert Decode(bs).value[1..] == Decode(bs[n..]).value;
    }
  }
}
