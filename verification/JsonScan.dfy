/** The language the scanner accepts, as a recognizer that returns what it read and
    what is left, and the proof that it is exactly the JSON of the text grammar. */
module JsonScan {
  import opened Common
  import opened JsonText
  import Utf8

  datatype Parsed<+T> = Parsed(node: T, rest: Bytes)

  /** The next byte, 0 at the end of input. */
  function Peek(s: Bytes): byte {
    if s == [] then 0 else s[0]
  }

  /** The longest prefix in a class. */
  function Span(c: Class, s: Bytes): (r: Bytes)
    ensures |r| <= |s| && r == s[..|r|] && c.All(r) && !(|r| < |s| && c.Has(s[|r|]))
  {
    if s != [] && c.Has(s[0]) then
      var r := [s[0]] + Span(c, s[1..]);
      assert r[1..] == Span(c, s[1..]) && s[..|r|] == [s[0]] + s[1..][..|r| - 1];
      r
    else []
  }

  // ----- strings

  function ScanHex(s: Bytes): (r: Option<Parsed<Bytes>>)
    ensures r.Some? ==> IsUnit(r.value.node) && s == r.value.node + r.value.rest
  {
    if |s| >= 4 && IsUnit(s[..4]) then Some(Parsed(s[..4], s[4..])) else None
  }

  /** An escaped code unit, after "\u"; a high surrogate needs its low half. */
  function ScanUnit(s: Bytes): (r: Option<Parsed<Char>>)
    ensures r.Some? ==>
      (CharOk(r.value.node) && !r.value.node.Lone? && |r.value.rest| < |s| && [BACKSLASH, UNICODE] + s == CharText(r.value.node) + r.value.rest)
  {
    var u := ScanHex(s);
    if u.None? || IsLow(UnitValue(u.value.node)) then None
    else if !IsHigh(UnitValue(u.value.node)) then Some(Parsed(Unit(u.value.node), u.value.rest))
    else
      var t := u.value.rest;
      if |t| < 2 || t[0] != BACKSLASH || t[1] != UNICODE then None
      else
        var low := ScanHex(t[2..]);
        if low.None? || !IsLow(UnitValue(low.value.node)) then None
        else
          Spell2(u.value.node, t, low.value.node, low.value.rest);
          Some(Parsed(Pair(u.value.node, low.value.node), low.value.rest))
  }

  lemma Spell2(high: Bytes, t: Bytes, low: Bytes, rest: Bytes)
    requires |t| >= 2 && t[0] == BACKSLASH && t[1] == UNICODE && t[2..] == low + rest
    ensures [BACKSLASH, UNICODE] + (high + t) == [BACKSLASH, UNICODE] + high + ([BACKSLASH, UNICODE] + low) + rest
  {
    assert t == [BACKSLASH, UNICODE] + t[2..];
  }

  function ScanWide(s: Bytes): (r: Option<Parsed<Char>>)
    requires s != [] && s[0] >= 0x80
    ensures r.Some? ==> r.value.node.Wide? && CharOk(r.value.node) && s == CharText(r.value.node) + r.value.rest
  {
    var n := Utf8.Width(s[0]);
    if n == 0 || |s| < n || !Utf8.WellFormed(s[..n]) then None
    else
      Utf8.EncodeDecode(s[..n]);
      Some(Parsed(Wide(Utf8.Decode(s[..n])), s[n..]))
  }

  /** One character of a string, not the closing quote. */
  function ScanChar(s: Bytes): (r: Option<Parsed<Char>>)
    requires s != [] && s[0] != QUOTE
    ensures r.Some? ==> CharOk(r.value.node) && |r.value.rest| < |s| && s == CharText(r.value.node) + r.value.rest
    ensures r.Some? ==> !r.value.node.Lone?
  {
    var b := s[0];
    if b < 0x20 then None
    else if b == BACKSLASH then
      if |s| < 2 then None
      else if s[1] == UNICODE then
        assert s == [BACKSLASH, UNICODE] + s[2..];
        ScanUnit(s[2..])
      else if IsEscape(s[1]) then Some(Parsed(Escape(s[1]), s[2..])) else None
    else if b >= 0x80 then ScanWide(s)
    else Some(Parsed(Plain(b), s[1..]))
  }

  /** Characters up to the closing quote. */
  function ScanChars(s: Bytes): (r: Option<Parsed<seq<Char>>>)
    ensures r.Some? ==> CharsOk(r.value.node) && Paired(r.value.node)
    decreases |s|
  {
    if s == [] then None
    else if s[0] == QUOTE then Some(Parsed([], s[1..]))
    else
      var c := ScanChar(s);
      if c.None? then None
      else
        var more := ScanChars(c.value.rest);
        if more.None? then None else Some(Parsed([c.value.node] + more.value.node, more.value.rest))
  }

  function ScanString(s: Bytes): (r: Option<Parsed<seq<Char>>>)
    ensures r.Some? ==> CharsOk(r.value.node) && Paired(r.value.node)
  {
    if Peek(s) == QUOTE then ScanChars(s[1..]) else None
  }

  // ----- numbers

  function ScanDigits(s: Bytes): (r: Option<Parsed<Bytes>>)
    ensures r.Some? ==> DigitsOk(r.value.node)
  {
    var digits := Span(Digit, s);
    if digits == [] then None else Some(Parsed(digits, s[|digits|..]))
  }

  function ScanWhole(s: Bytes): (r: Option<Parsed<Bytes>>)
    ensures r.Some? ==> DigitsOk(r.value.node) && (r.value.node[0] == ZERO ==> r.value.node == [ZERO])
  {
    if Peek(s) == ZERO then
      if IsDigit(Peek(s[1..])) then None else Some(Parsed([ZERO], s[1..]))
    else ScanDigits(s)
  }

  function ScanFraction(s: Bytes): (r: Option<Parsed<Option<Bytes>>>)
    ensures r.Some? && r.value.node.Some? ==> DigitsOk(r.value.node.value)
  {
    if Peek(s) != POINT then Some(Parsed(None, s))
    else
      var d := ScanDigits(s[1..]);
      if d.None? then None else Some(Parsed(Some(d.value.node), d.value.rest))
  }

  function ScanExponent(s: Bytes): (r: Option<Parsed<Option<Exponent>>>)
    ensures r.Some? && r.value.node.Some? ==> ExponentOk(r.value.node.value)
  {
    if !IsMark(Peek(s)) then Some(Parsed(None, s))
    else
      var sign := if IsSign(Peek(s[1..])) then Some(s[1]) else None;
      var d := ScanDigits(if sign.Some? then s[2..] else s[1..]);
      if d.None? then None else Some(Parsed(Some(Exponent(s[0], sign, d.value.node)), d.value.rest))
  }

  function ScanNumber(s: Bytes): (r: Option<Parsed<Number>>)
    ensures r.Some? ==> NumberOk(r.value.node)
  {
    var negative := Peek(s) == MINUS;
    var whole := ScanWhole(if negative then s[1..] else s);
    if whole.None? then None
    else
      var fraction := ScanFraction(whole.value.rest);
      if fraction.None? then None
      else
        var exponent := ScanExponent(fraction.value.rest);
        if exponent.None? then None
        else Some(Parsed(Number(negative, whole.value.node, fraction.value.node, exponent.value.node), exponent.value.rest))
  }

  // ----- values

  function ScanWord(w: Literal, s: Bytes): Option<Parsed<Json>> {
    var text := w.Text();
    if |text| <= |s| && s[..|text|] == text then Some(Parsed(Word(w), s[|text|..])) else None
  }

  function ScanSpaced(s: Bytes, depth: nat): (r: Option<Parsed<Spaced>>)
    requires depth <= MAX_DEPTH + 1
    ensures r.Some? ==> SpacedOk(r.value.node) && Within(r.value.node.value, depth)
    decreases MAX_DEPTH + 1 - depth, MAX_FIELDS + 2, 0
  {
    if depth > MAX_DEPTH then None
    else
      var lead := Span(Space, s);
      var v := ScanValue(s[|lead|..], depth);
      if v.None? then None else Some(Parsed(Spaced(lead, v.value.node), v.value.rest))
  }

  /** Which kind of value is decided by its first byte. */
  function ScanValue(s: Bytes, depth: nat): (r: Option<Parsed<Json>>)
    requires depth <= MAX_DEPTH
    ensures r.Some? ==> JsonOk(r.value.node) && Within(r.value.node, depth)
    decreases MAX_DEPTH + 1 - depth, MAX_FIELDS + 1, 0
  {
    var b := Peek(s);
    if b == QUOTE then
      var chars := ScanString(s);
      if chars.None? then None else Some(Parsed(Str(chars.value.node), chars.value.rest))
    else if b == Open(true) || b == Open(false) then ScanGroup(b == Open(true), s, depth)
    else if b == 0x74 then ScanWord(True, s)
    else if b == 0x66 then ScanWord(False, s)
    else if b == 0x6e then ScanWord(Null, s)
    else
      var number := ScanNumber(s);
      if number.None? then None else Some(Parsed(Num(number.value.node), number.value.rest))
  }

  function ScanGroup(braces: bool, s: Bytes, depth: nat): (r: Option<Parsed<Json>>)
    requires depth <= MAX_DEPTH && Peek(s) == Open(braces)
    ensures r.Some? ==> JsonOk(r.value.node) && Within(r.value.node, depth)
    decreases MAX_DEPTH + 1 - depth, MAX_FIELDS, 0
  {
    var pad := Span(Space, s[1..]);
    var t := s[1..][|pad|..];
    if Peek(t) == Close(braces) then Some(Parsed(Empty(braces, pad), t[1..]))
    else
      var items := ScanItems(braces, t, depth, MAX_FIELDS - 1);
      if items.None? then None
      else
        Some(Parsed(Group(braces, pad, items.value.node), items.value.rest))
  }

  /** At most one member and `room` more. */
  function ScanItems(braces: bool, s: Bytes, depth: nat, room: nat): (r: Option<Parsed<Items>>)
    requires depth <= MAX_DEPTH && room < MAX_FIELDS
    ensures r.Some? ==> ItemsOk(r.value.node, braces)
    ensures r.Some? ==> ItemsWithin(r.value.node, depth + 1) && Length(r.value.node) <= room + 1
    ensures r.Some? && !IsSpace(Peek(s)) ==> MemberLead(r.value.node.member) == []
    decreases MAX_DEPTH + 1 - depth, room, 2
  {
    var m := ScanMember(braces, s, depth);
    if m.None? then None
    else
      var t := m.value.rest;
      if Peek(t) == Close(braces) then Some(Parsed(Last(m.value.node), t[1..]))
      else if Peek(t) != COMMA || room == 0 then None
      else
        var more := ScanItems(braces, t[1..], depth, room - 1);
        if more.None? then None else Some(Parsed(More(m.value.node, more.value.node), more.value.rest))
  }

  function ScanKey(s: Bytes): (r: Option<Parsed<Key>>)
    ensures r.Some? ==> KeyOk(r.value.node) && Paired(r.value.node.chars) && (!IsSpace(Peek(s)) ==> r.value.node.lead == [])
  {
    var lead := Span(Space, s);
    var chars := ScanString(s[|lead|..]);
    if chars.None? then None
    else
      var t := chars.value.rest;
      var after := Span(Space, t);
      var u := t[|after|..];
      if Peek(u) != COLON then None else Some(Parsed(Key(lead, chars.value.node, after), u[1..]))
  }

  function ScanMember(braces: bool, s: Bytes, depth: nat): (r: Option<Parsed<Member>>)
    requires depth <= MAX_DEPTH
    ensures r.Some? ==>
      (MemberOk(r.value.node, braces) && (!IsSpace(Peek(s)) ==> MemberLead(r.value.node) == []))
    decreases MAX_DEPTH + 1 - depth, 0, 1
  {
    if braces then
      var key := ScanKey(s);
      if key.None? then None else ScanElement(Some(key.value.node), key.value.rest, depth)
    else ScanElement(None, s, depth)
  }

  function ScanElement(key: Option<Key>, s: Bytes, depth: nat): (r: Option<Parsed<Member>>)
    requires depth <= MAX_DEPTH && (key.Some? ==> KeyOk(key.value) && Paired(key.value.chars))
    ensures r.Some? ==> r.value.node.key == key && MemberOk(r.value.node, key.Some?)
    ensures r.Some? ==> MemberWithin(r.value.node, depth + 1)
    ensures r.Some? && !IsSpace(Peek(s)) ==> r.value.node.value.lead == []
    decreases MAX_DEPTH + 1 - depth, 0, 0
  {
    var value := ScanSpaced(s, depth + 1);
    if value.None? then None
    else
      var trail := Span(Space, value.value.rest);
      Some(Parsed(Member(key, value.value.node, trail), value.value.rest[|trail|..]))
  }
}
