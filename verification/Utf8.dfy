/** UTF-8 as RFC 3629 defines it: scalar values, their encoding, and the byte ranges
    by which well-formed sequences are recognized without decoding them. */
module Utf8 {
  import opened Common

  /** A Unicode scalar value outside ASCII. */
  predicate WideScalar(cp: int) {
    0x80 <= cp < 0xd800 || 0xe000 <= cp <= 0x10ffff
  }

  /** Continuation byte carrying six bits. */
  function Tail(bits: int): byte
    requires 0 <= bits < 0x40
  {
    (0x80 + bits) as byte
  }

  function High(x: int): int { x / 0x40 }

  function Low(x: int): int { x % 0x40 }

  function Encode(cp: int): (b: Bytes)
    requires WideScalar(cp)
    ensures 2 <= |b| <= 4
  {
    var c1 := High(cp);
    var c2 := High(c1);
    if cp < 0x800 then [(0xc0 + c1) as byte, Tail(Low(cp))]
    else if cp < 0x10000 then [(0xe0 + c2) as byte, Tail(Low(c1)), Tail(Low(cp))]
    else [(0xf0 + High(c2)) as byte, Tail(Low(c2)), Tail(Low(c1)), Tail(Low(cp))]
  }

  /** How many bytes a leading byte announces; 0 if it cannot lead. */
  function Width(b: byte): (n: nat)
    ensures n <= 4
  {
    if 0xc2 <= b <= 0xdf then 2 else if 0xe0 <= b <= 0xef then 3 else if 0xf0 <= b <= 0xf4 then 4 else 0
  }

  predicate IsTail(b: byte) {
    0x80 <= b <= 0xbf
  }

  /** The second byte's range excludes overlong forms, surrogates and values that
      are too large. */
  predicate SecondOk(first: byte, b: byte) {
    if first == 0xe0 then 0xa0 <= b <= 0xbf
    else if first == 0xed then 0x80 <= b <= 0x9f
    else if first == 0xf0 then 0x90 <= b <= 0xbf
    else if first == 0xf4 then 0x80 <= b <= 0x8f
    else IsTail(b)
  }

  /** One well-formed sequence of the length its first byte announces. */
  predicate WellFormed(b: Bytes) {
    && 2 <= |b| == Width(b[0]) && SecondOk(b[0], b[1])
    && (|b| >= 3 ==> IsTail(b[2])) && (|b| == 4 ==> IsTail(b[3]))
  }

  function Bits(b: byte): (n: int)
    requires IsTail(b)
    ensures 0 <= n < 0x40
  {
    b as int - 0x80
  }

  function Join(high: int, low: int): int { high * 0x40 + low }

  function Decode(b: Bytes): int
    requires WellFormed(b)
  {
    if |b| == 2 then Join(b[0] as int - 0xc0, Bits(b[1]))
    else if |b| == 3 then Join(Join(b[0] as int - 0xe0, Bits(b[1])), Bits(b[2]))
    else Join(Join(Join(b[0] as int - 0xf0, Bits(b[1])), Bits(b[2])), Bits(b[3]))
  }

  lemma SplitJoin(high: int, low: int)
    requires 0 <= low < 0x40
    ensures High(Join(high, low)) == high && Low(Join(high, low)) == low
  {
  }

  lemma JoinSplit(x: int)
    ensures Join(High(x), Low(x)) == x && 0 <= Low(x) < 0x40
  {
  }

  lemma JoinValue(high: int, low: int)
    ensures Join(high, low) == 64 * high + low
  {
  }

  /** Recognized sequences are exactly the encodings of scalar values. */
  lemma EncodeDecode(b: Bytes)
    requires WellFormed(b)
    ensures WideScalar(Decode(b)) && Encode(Decode(b)) == b
  {
    DecodedRange(b);
    hide High, Low, Join;
    var one := b[0] as int - (if |b| == 2 then 0xc0 else if |b| == 3 then 0xe0 else 0xf0);
    SplitJoin(one, Bits(b[1]));
    if |b| >= 3 {
      SplitJoin(Join(one, Bits(b[1])), Bits(b[2]));
    }
    if |b| == 4 {
      SplitJoin(Join(Join(one, Bits(b[1])), Bits(b[2])), Bits(b[3]));
    }
  }

  lemma DecodedRange(b: Bytes)
    requires WellFormed(b)
    ensures WideScalar(Decode(b))
    ensures |b| == 2 ==> Decode(b) < 0x800
    ensures |b| == 3 ==> 0x800 <= Decode(b) < 0x10000
    ensures |b| == 4 ==> 0x10000 <= Decode(b)
  {
    if |b| == 2 {
      JoinValue(b[0] as int - 0xc0, Bits(b[1]));
    } else {
      var one := b[0] as int - if |b| == 3 then 0xe0 else 0xf0;
      JoinValue(one, Bits(b[1]));
      JoinValue(Join(one, Bits(b[1])), Bits(b[2]));
      if |b| == 4 {
        JoinValue(Join(Join(one, Bits(b[1])), Bits(b[2])), Bits(b[3]));
      }
    }
    hide Join;
  }

  lemma DecodeEncode(cp: int)
    requires WideScalar(cp)
    ensures var b := Encode(cp); WellFormed(b) && Decode(b) == cp
  {
    var c1 := High(cp);
    var c2 := High(c1);
    hide Join;
    JoinSplit(cp);
    JoinSplit(c1);
    JoinSplit(c2);
    JoinValue(c1, Low(cp));
    JoinValue(c2, Low(c1));
    JoinValue(High(c2), Low(c2));
    hide High, Low;
  }

  // ----- whole texts

  /** A text of ASCII bytes and well-formed sequences. */
  predicate Valid(s: Bytes)
    decreases |s|
  {
    if s == [] then true
    else if s[0] < 0x80 then Valid(s[1..])
    else
      var n := Width(s[0]);
      0 < n <= |s| && WellFormed(s[..n]) && Valid(s[n..])
  }

  lemma {:induction false} AsciiValid(s: Bytes)
    requires forall i :: 0 <= i < |s| ==> s[i] < 0x80
    ensures Valid(s)
  {
    if s != [] {
      AsciiValid(s[1..]);
    }
  }

  lemma WideValid(cp: int)
    requires WideScalar(cp)
    ensures Valid(Encode(cp))
  {
    DecodeEncode(cp);
    var b := Encode(cp);
    assert b[..|b|] == b && b[|b|..] == [];
    hide Encode, Decode;
  }

  /** No sequence runs on into an ASCII byte, so text can be checked in parts. */
  lemma {:induction false} ValidParts(a: Bytes, b: Bytes)
    requires b == [] || b[0] < 0x80
    ensures Valid(a + b) <==> Valid(a) && Valid(b)
    decreases |a|
  {
    if a == [] {
      assert a + b == b;
    } else if a[0] < 0x80 {
      assert (a + b)[1..] == a[1..] + b;
      ValidParts(a[1..], b);
    } else {
      var n := Width(a[0]);
      if 0 < n <= |a| {
        assert (a + b)[..n] == a[..n] && (a + b)[n..] == a[n..] + b;
        ValidParts(a[n..], b);
      } else if 0 < n <= |a + b| {
        assert (a + b)[..n][|a|] == b[0];
      }
    }
  }

  /** Valid text in front makes no difference. */
  lemma {:induction false} ValidBehind(a: Bytes, b: Bytes)
    requires Valid(a)
    ensures Valid(a + b) <==> Valid(b)
    decreases |a|
  {
    if a == [] {
      assert a + b == b;
    } else {
      var n := if a[0] < 0x80 then 1 else Width(a[0]);
      assert (a + b)[..n] == a[..n] && (a + b)[n..] == a[n..] + b;
      ValidBehind(a[n..], b);
    }
  }
}
