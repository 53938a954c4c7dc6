/** JSON text as sections 2 to 7 of RFC 8259 define it: every value with its exact
    spelling, the limits put on it, and what is left of it without insignificant
    whitespace. */
module JsonText {
  import opened Common
  import Utf8

  const MAX_DEPTH: nat := 8
  const MAX_FIELDS: nat := 64

  // ----- bytes

  const QUOTE: byte := 0x22
  const BACKSLASH: byte := 0x5c
  const COMMA: byte := 0x2c
  const COLON: byte := 0x3a
  const MINUS: byte := 0x2d
  const PLUS: byte := 0x2b
  const POINT: byte := 0x2e
  const ZERO: byte := 0x30
  const UNICODE: byte := 0x75

  predicate IsDigit(b: byte) { 0x30 <= b <= 0x39 }

  predicate IsSpace(b: byte) { b == 0x20 || b == 0x09 || b == 0x0a || b == 0x0d }

  predicate IsHex(b: byte) { IsDigit(b) || 0x61 <= b <= 0x66 || 0x41 <= b <= 0x46 }

  predicate IsMark(b: byte) { b == 0x65 || b == 0x45 }

  predicate IsSign(b: byte) { b == PLUS || b == MINUS }

  /** One of the characters a backslash may precede, other than "u". */
  predicate IsEscape(b: byte) {
    b == QUOTE || b == BACKSLASH || b == 0x2f || b == 0x62 || b == 0x66 || b == 0x6e || b == 0x72 || b == 0x74
  }

  datatype Class = Space | Digit {
    predicate Has(b: byte) {
      match this case Space => IsSpace(b) case Digit => IsDigit(b)
    }

    predicate All(s: Bytes) {
      forall i :: 0 <= i < |s| ==> Has(s[i])
    }
  }

  function Open(braces: bool): byte { if braces then 0x7b else 0x5b }

  function Close(braces: bool): byte { if braces then 0x7d else 0x5d }

  // ----- strings

  /** A character as spelled: itself, a simple escape, one escaped code unit, an escaped
      surrogate pair, or an escaped surrogate that is not half of a pair. */
  datatype Char =
    | Plain(b: byte)
    | Wide(cp: int)
    | Escape(b: byte)
    | Unit(hex: Bytes)
    | Pair(high: Bytes, low: Bytes)
    | Lone(hex: Bytes)

  function HexDigit(b: byte): (n: int)
    requires IsHex(b)
    ensures 0 <= n < 16
  {
    if IsDigit(b) then b as int - 0x30 else if b >= 0x61 then b as int - 0x61 + 10 else b as int - 0x41 + 10
  }

  predicate IsUnit(hex: Bytes) {
    |hex| == 4 && IsHex(hex[0]) && IsHex(hex[1]) && IsHex(hex[2]) && IsHex(hex[3])
  }

  function UnitValue(hex: Bytes): (n: int)
    requires IsUnit(hex)
    ensures 0 <= n < 0x10000
  {
    ((HexDigit(hex[0]) * 16 + HexDigit(hex[1])) * 16 + HexDigit(hex[2])) * 16 + HexDigit(hex[3])
  }

  predicate IsHigh(u: int) { 0xd800 <= u <= 0xdbff }

  predicate IsLow(u: int) { 0xdc00 <= u <= 0xdfff }

  predicate LoneHigh(c: Char) { c.Lone? && IsUnit(c.hex) && IsHigh(UnitValue(c.hex)) }

  predicate LoneLow(c: Char) { c.Lone? && IsUnit(c.hex) && IsLow(UnitValue(c.hex)) }

  predicate CharOk(c: Char) {
    match c
    case Plain(b) => 0x20 <= b < 0x80 && b != QUOTE && b != BACKSLASH
    case Wide(cp) => Utf8.WideScalar(cp)
    case Escape(b) => IsEscape(b)
    case Unit(hex) => IsUnit(hex) && !IsHigh(UnitValue(hex)) && !IsLow(UnitValue(hex))
    case Pair(high, low) => IsUnit(high) && IsHigh(UnitValue(high)) && IsUnit(low) && IsLow(UnitValue(low))
    case Lone(_) => LoneHigh(c) || LoneLow(c)
  }

  function CharText(c: Char): (t: Bytes)
    requires CharOk(c)
    ensures |t| > 0 && t[0] != QUOTE && t[0] >= 0x20
  {
    match c
    case Plain(b) => [b]
    case Wide(cp) => WideText(cp)
    case Escape(b) => [BACKSLASH, b]
    case Unit(hex) => [BACKSLASH, UNICODE] + hex
    case Pair(high, low) => [BACKSLASH, UNICODE] + high + ([BACKSLASH, UNICODE] + low)
    case Lone(hex) => [BACKSLASH, UNICODE] + hex
  }

  function WideText(cp: int): (t: Bytes)
    requires Utf8.WideScalar(cp)
    ensures |t| > 0 && t[0] >= 0x80 && Utf8.WellFormed(t) && Utf8.Decode(t) == cp
  {
    Utf8.DecodeEncode(cp);
    Utf8.Encode(cp)
  }

  /** Any string of the grammar, in its one reading: two halves in a row are a pair. */
  predicate CharsOk(chars: seq<Char>) {
    && (forall i :: 0 <= i < |chars| ==> CharOk(chars[i]))
    && (forall i, j :: 0 <= i < |chars| && 0 <= j < |chars| && j == i + 1 ==> !(LoneHigh(chars[i]) && LoneLow(chars[j])))
  }

  /** Every surrogate is half of a pair, so that the string stands for some text. */
  predicate Paired(chars: seq<Char>) {
    forall i :: 0 <= i < |chars| ==> !chars[i].Lone?
  }

  function CharsText(chars: seq<Char>): Bytes
    requires CharsOk(chars)
  {
    if chars == [] then [] else CharText(chars[0]) + CharsText(chars[1..])
  }

  function StringText(chars: seq<Char>): Bytes
    requires CharsOk(chars)
  {
    [QUOTE] + CharsText(chars) + [QUOTE]
  }

  // ----- numbers

  datatype Exponent = Exponent(mark: byte, sign: Option<byte>, digits: Bytes)

  datatype Number = Number(negative: bool, whole: Bytes, fraction: Option<Bytes>, exponent: Option<Exponent>)

  predicate DigitsOk(s: Bytes) { s != [] && Digit.All(s) }

  predicate ExponentOk(e: Exponent) {
    IsMark(e.mark) && DigitsOk(e.digits) && (e.sign.Some? ==> IsSign(e.sign.value))
  }

  predicate NumberOk(n: Number) {
    && DigitsOk(n.whole) && (n.whole[0] == ZERO ==> n.whole == [ZERO])
    && (n.fraction.Some? ==> DigitsOk(n.fraction.value)) && (n.exponent.Some? ==> ExponentOk(n.exponent.value))
  }

  function MinusText(negative: bool): Bytes { if negative then [MINUS] else [] }

  function FractionText(f: Option<Bytes>): Bytes { if f.None? then [] else [POINT] + f.value }

  function ExponentText(e: Option<Exponent>): Bytes {
    if e.None? then [] else [e.value.mark] + ((if e.value.sign.None? then [] else [e.value.sign.value]) + e.value.digits)
  }

  function NumberText(n: Number): Bytes {
    MinusText(n.negative) + (n.whole + (FractionText(n.fraction) + ExponentText(n.exponent)))
  }

  // ----- values

  datatype Literal = True | False | Null {
    function Text(): Bytes {
      match this
      case True => [0x74, 0x72, 0x75, 0x65]
      case False => [0x66, 0x61, 0x6c, 0x73, 0x65]
      case Null => [0x6e, 0x75, 0x6c, 0x6c]
    }
  }

  /** A value and the whitespace in front of it. */
  datatype Spaced = Spaced(lead: Bytes, value: Json)

  datatype Json =
    | Str(chars: seq<Char>)
    | Num(number: Number)
    | Word(literal: Literal)
    | Empty(braces: bool, pad: Bytes)
    | Group(braces: bool, pad: Bytes, items: Items)

  datatype Items = Last(member: Member) | More(member: Member, rest: Items)

  /** An array element has no key. */
  datatype Member = Member(key: Option<Key>, value: Spaced, trail: Bytes)

  datatype Key = Key(lead: Bytes, chars: seq<Char>, after: Bytes)

  function Length(items: Items): nat {
    if items.Last? then 1 else 1 + Length(items.rest)
  }

  /** Whitespace in front of a member. */
  function MemberLead(m: Member): Bytes {
    if m.key.Some? then m.key.value.lead else m.value.lead
  }

  predicate KeyOk(key: Key) {
    Space.All(key.lead) && CharsOk(key.chars) && Space.All(key.after)
  }

  /** A well-spelled value, of any depth and size. The whitespace after an opening
      bracket belongs to the group. */
  predicate JsonOk(v: Json)
    decreases v
  {
    match v
    case Str(chars) => CharsOk(chars)
    case Num(number) => NumberOk(number)
    case Word(_) => true
    case Empty(_, pad) => Space.All(pad)
    case Group(braces, pad, items) =>
      Space.All(pad) && MemberLead(items.member) == [] && ItemsOk(items, braces)
  }

  predicate SpacedOk(s: Spaced)
    decreases s
  {
    Space.All(s.lead) && JsonOk(s.value)
  }

  predicate ItemsOk(items: Items, braces: bool)
    decreases items
  {
    MemberOk(items.member, braces) && (items.More? ==> ItemsOk(items.rest, braces))
  }

  predicate MemberOk(m: Member, braces: bool)
    decreases m
  {
    && (m.key.Some? <==> braces) && (m.key.Some? ==> KeyOk(m.key.value))
    && SpacedOk(m.value) && Space.All(m.trail)
  }

  // ----- limits

  /** A value at nesting depth `depth` is nested no deeper than the limit, no object or
      array in it has more members than the limit, and its strings have their surrogates
      in pairs. */
  predicate Within(v: Json, depth: nat)
    decreases v
  {
    && depth <= MAX_DEPTH && (v.Str? ==> Paired(v.chars))
    && (v.Group? ==> Length(v.items) <= MAX_FIELDS && ItemsWithin(v.items, depth + 1))
  }

  predicate ItemsWithin(items: Items, depth: nat)
    decreases items
  {
    MemberWithin(items.member, depth) && (items.More? ==> ItemsWithin(items.rest, depth))
  }

  predicate MemberWithin(m: Member, depth: nat)
    decreases m
  {
    (m.key.Some? ==> Paired(m.key.value.chars)) && Within(m.value.value, depth)
  }

  // ----- spelling, with or without insignificant whitespace

  function Gap(space: Bytes, tight: bool): Bytes { if tight then [] else space }

  function ValueText(v: Json, tight: bool): Bytes
    requires JsonOk(v)
    decreases v
  {
    match v
    case Str(chars) => StringText(chars)
    case Num(number) => NumberText(number)
    case Word(literal) => literal.Text()
    case Empty(braces, pad) => [Open(braces)] + Gap(pad, tight) + [Close(braces)]
    case Group(braces, pad, items) => [Open(braces)] + Gap(pad, tight) + ItemsText(items, braces, tight)
  }

  function SpacedText(s: Spaced, tight: bool): Bytes
    requires SpacedOk(s)
    decreases s
  {
    Gap(s.lead, tight) + ValueText(s.value, tight)
  }

  /** Members, the commas between them and the closing bracket. */
  function ItemsText(items: Items, braces: bool, tight: bool): Bytes
    requires ItemsOk(items, braces)
    decreases items
  {
    MemberText(items.member, braces, tight)
    + if items.Last? then [Close(braces)] else [COMMA] + ItemsText(items.rest, braces, tight)
  }

  function MemberText(m: Member, braces: bool, tight: bool): Bytes
    requires MemberOk(m, braces)
    decreases m
  {
    (if m.key.None? then [] else KeyText(m.key.value, tight)) + (SpacedText(m.value, tight) + Gap(m.trail, tight))
  }

  function KeyText(key: Key, tight: bool): Bytes
    requires KeyOk(key)
  {
    Gap(key.lead, tight) + (StringText(key.chars) + (Gap(key.after, tight) + [COLON]))
  }
}
