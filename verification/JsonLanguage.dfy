/** The recognizer accepts exactly the text of well-formed values within the limits,
    and what is kept of a value is the same value without whitespace. */
module JsonLanguage {
  import opened Common
  import opened JsonText
  import opened JsonScan
  import Utf8

  /** What was read and what is left make up the input. */
  lemma Splice(s: Bytes, a: Bytes, t: Bytes, b: Bytes, rest: Bytes)
    requires s == a + t && t == b + rest
    ensures s == a + b + rest
  {
    Append3(a, b, rest);
  }

  lemma Regroup(a: Bytes, b: Bytes, rest: Bytes)
    ensures a + b + rest == a + (b + rest)
  {
    Append3(a, b, rest);
  }

  lemma Cut(s: Bytes, n: nat)
    requires n <= |s|
    ensures s == s[..n] + s[n..]
  {
  }

  lemma Uncons<T>(s: seq<T>)
    requires s != []
    ensures s == [s[0]] + s[1..]
  {
  }

  lemma Head(b: byte, s: Bytes)
    ensures Peek([b] + s) == b && ([b] + s)[1..] == s
  {
  }

  lemma Behind(a: Bytes, s: Bytes)
    ensures (a + s)[..|a|] == a && (a + s)[|a|..] == s && Peek(a + s) == if a == [] then Peek(s) else a[0]
  {
  }

  // ----- runs of one class

  lemma {:induction false} SpanOf(c: Class, a: Bytes, rest: Bytes)
    requires c.All(a) && !c.Has(Peek(rest))
    ensures Span(c, a + rest) == a && (a + rest)[|a|..] == rest
  {
    Behind(a, rest);
    if a == [] {
      NothingAdded(rest);
    } else {
      SpanOf(c, a[1..], rest);
      Uncons(a);
      Regroup([a[0]], a[1..], rest);
      Head(a[0], a[1..] + rest);
    }
  }

  lemma SpanSplits(c: Class, s: Bytes)
    ensures var r := Span(c, s); s == r + s[|r|..] && !c.Has(Peek(s[|r|..]))
  {
  }

  // ----- strings

  lemma {:induction false} CharsSound(s: Bytes)
    requires ScanChars(s).Some?
    ensures var p := ScanChars(s).value; s == CharsText(p.node) + [QUOTE] + p.rest
    decreases |s|
  {
    if s[0] == QUOTE {
      assert s == [QUOTE] + s[1..];
    } else {
      var c := ScanChar(s).value;
      var more := ScanChars(c.rest).value;
      CharsSound(c.rest);
      hide ScanChar;
      assert ([c.node] + more.node)[1..] == more.node;
      Regroup(CharsText(more.node), [QUOTE], more.rest);
      Splice(s, CharText(c.node), c.rest, CharsText(more.node), [QUOTE] + more.rest);
      Append3(CharText(c.node) + CharsText(more.node), [QUOTE], more.rest);
    }
  }

  lemma StringSound(s: Bytes)
    requires ScanString(s).Some?
    ensures var p := ScanString(s).value; s == StringText(p.node) + p.rest
  {
    CharsSound(s[1..]);
    var p := ScanChars(s[1..]).value;
    hide ScanChars, CharsText;
    Append3([QUOTE], CharsText(p.node), [QUOTE]);
    Uncons(s);
    Splice(s, [QUOTE], s[1..], CharsText(p.node) + [QUOTE], p.rest);
  }

  lemma HexComplete(hex: Bytes, rest: Bytes)
    requires IsUnit(hex)
    ensures ScanHex(hex + rest) == Some(Parsed(hex, rest))
  {
    assert (hex + rest)[..4] == hex && (hex + rest)[4..] == rest;
  }

  lemma UnitComplete(c: Char, rest: Bytes)
    requires CharOk(c) && (c.Unit? || c.Pair?)
    ensures ScanUnit((CharText(c) + rest)[2..]) == Some(Parsed(c, rest))
  {
    var mark := [BACKSLASH, UNICODE];
    hide ScanHex, IsUnit, UnitValue;
    if c.Unit? {
      Regroup(mark, c.hex, rest);
      Behind(mark, c.hex + rest);
      HexComplete(c.hex, rest);
    } else {
      var t := mark + (c.low + rest);
      Regroup(mark + c.high, mark + c.low, rest);
      Regroup(mark, c.low, rest);
      Regroup(mark, c.high, t);
      Behind(mark, c.high + t);
      HexComplete(c.high, t);
      Behind(mark, c.low + rest);
      HexComplete(c.low, rest);
    }
  }

  lemma WideComplete(cp: int, rest: Bytes)
    requires Utf8.WideScalar(cp)
    ensures ScanWide(WideText(cp) + rest) == Some(Parsed(Wide(cp), rest))
  {
    var t := WideText(cp);
    assert (t + rest)[0] == t[0] && (t + rest)[..|t|] == t && (t + rest)[|t|..] == rest;
  }

  lemma CharComplete(c: Char, rest: Bytes)
    requires CharOk(c) && !c.Lone?
    ensures ScanChar(CharText(c) + rest) == Some(Parsed(c, rest))
  {
    var s := CharText(c) + rest;
    match c
    case Plain(b) =>
      assert s[1..] == rest;
    case Wide(cp) =>
      WideComplete(cp, rest);
    case Escape(b) =>
      assert s[2..] == rest;
    case _ =>
      UnitComplete(c, rest);
  }

  lemma {:induction false} CharsComplete(chars: seq<Char>, rest: Bytes)
    requires CharsOk(chars) && Paired(chars)
    ensures ScanChars(CharsText(chars) + ([QUOTE] + rest)) == Some(Parsed(chars, rest))
  {
    var tail := [QUOTE] + rest;
    if chars == [] {
      NothingAdded(tail);
      Head(QUOTE, rest);
    } else {
      CharsComplete(chars[1..], rest);
      var more := CharsText(chars[1..]) + tail;
      CharComplete(chars[0], more);
      hide ScanChar, CharOk, CharText;
      Regroup(CharText(chars[0]), CharsText(chars[1..]), tail);
      Behind(CharText(chars[0]), more);
      Uncons(chars);
    }
  }

  lemma StringComplete(chars: seq<Char>, rest: Bytes)
    requires CharsOk(chars) && Paired(chars)
    ensures ScanString(StringText(chars) + rest) == Some(Parsed(chars, rest))
  {
    CharsComplete(chars, rest);
    var text := CharsText(chars);
    hide ScanChars, CharsText;
    Append3([QUOTE], text, [QUOTE]);
    Regroup([QUOTE], text + [QUOTE], rest);
    Regroup(text, [QUOTE], rest);
    Head(QUOTE, text + ([QUOTE] + rest));
  }

  // ----- numbers

  /** What may follow a number: nothing that would still belong to it. */
  predicate NumberFollow(n: Number, rest: Bytes) {
    && !IsDigit(Peek(rest)) && (n.exponent.None? ==> !IsMark(Peek(rest)))
    && (n.exponent.None? && n.fraction.None? ==> Peek(rest) != POINT)
  }

  lemma DigitsSound(s: Bytes)
    requires ScanDigits(s).Some?
    ensures var p := ScanDigits(s).value; s == p.node + p.rest && !IsDigit(Peek(p.rest))
  {
    SpanSplits(Digit, s);
  }

  lemma DigitsComplete(digits: Bytes, rest: Bytes)
    requires DigitsOk(digits) && !IsDigit(Peek(rest))
    ensures ScanDigits(digits + rest) == Some(Parsed(digits, rest))
  {
    SpanOf(Digit, digits, rest);
  }

  lemma WholeSound(s: Bytes)
    requires ScanWhole(s).Some?
    ensures var p := ScanWhole(s).value; s == p.node + p.rest && !IsDigit(Peek(p.rest))
  {
    if Peek(s) == ZERO {
      assert s == [ZERO] + s[1..];
    } else {
      DigitsSound(s);
    }
  }

  lemma WholeComplete(whole: Bytes, rest: Bytes)
    requires DigitsOk(whole) && (whole[0] == ZERO ==> whole == [ZERO]) && !IsDigit(Peek(rest))
    ensures ScanWhole(whole + rest) == Some(Parsed(whole, rest))
  {
    if whole[0] == ZERO {
      assert (whole + rest)[1..] == rest;
    } else {
      DigitsComplete(whole, rest);
    }
  }

  lemma FractionSound(s: Bytes)
    requires ScanFraction(s).Some?
    ensures var p := ScanFraction(s).value;
      && s == FractionText(p.node) + p.rest
      && if p.node.Some? then !IsDigit(Peek(p.rest)) else Peek(p.rest) == Peek(s) != POINT
  {
    if Peek(s) == POINT {
      DigitsSound(s[1..]);
      assert s == [POINT] + s[1..];
      var p := ScanDigits(s[1..]).value;
      Splice(s, [POINT], s[1..], p.node, p.rest);
    }
  }

  lemma FractionComplete(f: Option<Bytes>, rest: Bytes)
    requires if f.Some? then DigitsOk(f.value) && !IsDigit(Peek(rest)) else Peek(rest) != POINT
    ensures ScanFraction(FractionText(f) + rest) == Some(Parsed(f, rest))
  {
    if f.None? {
      assert FractionText(f) + rest == rest;
    } else {
      assert (FractionText(f) + rest)[1..] == f.value + rest;
      DigitsComplete(f.value, rest);
    }
  }

  function SignText(sign: Option<byte>): Bytes { if sign.None? then [] else [sign.value] }

  lemma ExponentSound(s: Bytes)
    requires ScanExponent(s).Some?
    ensures var p := ScanExponent(s).value;
      && s == ExponentText(p.node) + p.rest
      && if p.node.Some? then !IsDigit(Peek(p.rest)) else Peek(p.rest) == Peek(s) && !IsMark(Peek(s))
  {
    if IsMark(Peek(s)) {
      var sign := if IsSign(Peek(s[1..])) then Some(s[1]) else None;
      var t := if sign.Some? then s[2..] else s[1..];
      DigitsSound(t);
      assert s == [s[0]] + (SignText(sign) + t);
      var p := ScanDigits(t).value;
      Splice(SignText(sign) + t, SignText(sign), t, p.node, p.rest);
      Splice(s, [s[0]], SignText(sign) + t, SignText(sign) + p.node, p.rest);
    }
  }

  lemma ExponentComplete(e: Option<Exponent>, rest: Bytes)
    requires if e.Some? then ExponentOk(e.value) && !IsDigit(Peek(rest)) else !IsMark(Peek(rest))
    ensures ScanExponent(ExponentText(e) + rest) == Some(Parsed(e, rest))
  {
    if e.None? {
      NothingAdded(rest);
    } else {
      var mark, sign, digits := e.value.mark, SignText(e.value.sign), e.value.digits;
      DigitsComplete(digits, rest);
      Regroup(sign, digits, rest);
      Regroup([mark], sign + digits, rest);
      Head(mark, sign + (digits + rest));
      Behind(sign, digits + rest);
      Behind(digits, rest);
      Behind([mark] + sign, digits + rest);
      Append3([mark], sign, digits + rest);
      hide ScanDigits;
    }
  }

  lemma NumberSound(s: Bytes)
    requires ScanNumber(s).Some?
    ensures var p := ScanNumber(s).value; s == NumberText(p.node) + p.rest && NumberFollow(p.node, p.rest)
  {
    var minus := MinusText(Peek(s) == MINUS);
    var t := if Peek(s) == MINUS then s[1..] else s;
    assert s == minus + t;
    WholeSound(t);
    var whole := ScanWhole(t).value;
    FractionSound(whole.rest);
    var fraction := ScanFraction(whole.rest).value;
    ExponentSound(fraction.rest);
    var exponent := ScanExponent(fraction.rest).value;
    var f, e := FractionText(fraction.node), ExponentText(exponent.node);
    Splice(whole.rest, f, fraction.rest, e, exponent.rest);
    Splice(t, whole.node, whole.rest, f + e, exponent.rest);
    Splice(s, minus, t, whole.node + (f + e), exponent.rest);
    hide ScanWhole, ScanFraction, ScanExponent;
  }

  lemma NumberComplete(n: Number, rest: Bytes)
    requires NumberOk(n) && NumberFollow(n, rest)
    ensures ScanNumber(NumberText(n) + rest) == Some(Parsed(n, rest))
  {
    var f, e := FractionText(n.fraction), ExponentText(n.exponent);
    var t := n.whole + (f + (e + rest));
    var minus := MinusText(n.negative);
    ExponentComplete(n.exponent, rest);
    FractionFollow(n, rest);
    FractionComplete(n.fraction, e + rest);
    WholeComplete(n.whole, f + (e + rest));
    hide ScanWhole, ScanFraction, ScanExponent, FractionText, ExponentText, NumberFollow;
    Regroup(f, e, rest);
    Regroup(n.whole, f + e, rest);
    Regroup(minus, n.whole + (f + e), rest);
    Behind(n.whole, f + (e + rest));
    Behind(minus, t);
    NothingAdded(t);
  }

  /** What follows a number's integer part. */
  lemma FractionFollow(n: Number, rest: Bytes)
    requires NumberOk(n) && NumberFollow(n, rest)
    ensures var e := ExponentText(n.exponent);
      && (if n.fraction.Some? then !IsDigit(Peek(e + rest)) else Peek(e + rest) != POINT)
      && !IsDigit(Peek(FractionText(n.fraction) + (e + rest)))
  {
    var f, e := FractionText(n.fraction), ExponentText(n.exponent);
    Behind(e, rest);
    Behind(f, e + rest);
    hide Digit.All, DigitsOk;
  }

  lemma NothingAdded<T>(s: seq<T>)
    ensures [] + s == s
  {
  }

  // ----- values

  /** Only a number can be continued by what follows it. */
  predicate Follows(v: Json, rest: Bytes) {
    v.Num? ==> NumberFollow(v.number, rest)
  }

  lemma SpacedSound(s: Bytes, depth: nat)
    requires depth <= MAX_DEPTH + 1 && ScanSpaced(s, depth).Some?
    ensures var p := ScanSpaced(s, depth).value;
      s == SpacedText(p.node, false) + p.rest && Follows(p.node.value, p.rest)
    decreases MAX_DEPTH + 1 - depth, MAX_FIELDS + 2, 0
  {
    var lead := Span(Space, s);
    SpanSplits(Space, s);
    ValueSound(s[|lead|..], depth);
    var v := ScanValue(s[|lead|..], depth).value;
    hide ScanValue, ValueText, JsonOk;
    Splice(s, lead, s[|lead|..], ValueText(v.node, false), v.rest);
  }

  lemma ValueSound(s: Bytes, depth: nat)
    requires depth <= MAX_DEPTH && ScanValue(s, depth).Some?
    ensures var p := ScanValue(s, depth).value;
      s == ValueText(p.node, false) + p.rest && Follows(p.node, p.rest)
    decreases MAX_DEPTH + 1 - depth, MAX_FIELDS + 1, 0
  {
    var b := Peek(s);
    if b == QUOTE {
      StringSound(s);
    } else if b == Open(true) || b == Open(false) {
      GroupSound(b == Open(true), s, depth);
    } else if b == 0x74 || b == 0x66 || b == 0x6e {
      var w := if b == 0x74 then True else if b == 0x66 then False else Null;
      Cut(s, |w.Text()|);
    } else {
      NumberSound(s);
    }
    hide ScanGroup, ScanNumber, ScanString, StringText, NumberText, NumberFollow;
  }

  lemma UnfoldGroup(braces: bool, pad: Bytes, items: Items)
    requires JsonOk(Group(braces, pad, items))
    ensures ValueText(Group(braces, pad, items), false) == [Open(braces)] + pad + ItemsText(items, braces, false)
  {
    hide ItemsText;
  }

  lemma GroupSound(braces: bool, s: Bytes, depth: nat)
    requires depth <= MAX_DEPTH && Peek(s) == Open(braces) && ScanGroup(braces, s, depth).Some?
    ensures var p := ScanGroup(braces, s, depth).value;
      s == ValueText(p.node, false) + p.rest && !p.node.Num?
    decreases MAX_DEPTH + 1 - depth, MAX_FIELDS, 0
  {
    var pad := Span(Space, s[1..]);
    var t := s[1..][|pad|..];
    SpanSplits(Space, s[1..]);
    Uncons(s);
    hide Span;
    Splice(s, [Open(braces)], s[1..], pad, t);
    if Peek(t) == Close(braces) {
      Uncons(t);
      Splice(s, [Open(braces)] + pad, t, [Close(braces)], t[1..]);
    } else {
      ItemsSound(braces, t, depth, MAX_FIELDS - 1);
      var items := ScanItems(braces, t, depth, MAX_FIELDS - 1).value;
      UnfoldGroup(braces, pad, items.node);
      hide ScanItems, ValueText, ItemsText, ItemsOk;
      Splice(s, [Open(braces)] + pad, t, ItemsText(items.node, braces, false), items.rest);
    }
  }

  lemma ItemsSound(braces: bool, s: Bytes, depth: nat, room: nat)
    requires depth <= MAX_DEPTH && room < MAX_FIELDS && ScanItems(braces, s, depth, room).Some?
    ensures var p := ScanItems(braces, s, depth, room).value; s == ItemsText(p.node, braces, false) + p.rest
    decreases MAX_DEPTH + 1 - depth, room, 2
  {
    hide ScanMember, MemberText, MemberOk, ItemsText, ItemsOk, ItemsWithin, Within;
    MemberSound(braces, s, depth);
    var m := ScanMember(braces, s, depth).value;
    var r := ScanItems(braces, s, depth, room).value;
    UnfoldItems(r.node, braces);
    var text, t := MemberText(m.node, braces, false), m.rest;
    if Peek(t) == Close(braces) {
      SpliceHead(s, text, t, [], t[1..]);
      NothingAdded(t[1..]);
    } else {
      ItemsSound(braces, t[1..], depth, room - 1);
      SpliceHead(s, text, t, ItemsText(r.node.rest, braces, false), r.rest);
    }
  }

  lemma SpliceHead(s: Bytes, a: Bytes, t: Bytes, b: Bytes, rest: Bytes)
    requires s == a + t && t != [] && t[1..] == b + rest
    ensures s == a + ([t[0]] + b) + rest
    ensures b == [] ==> s == a + [t[0]] + rest
  {
    Uncons(t);
    Regroup([t[0]], b, rest);
    Splice(s, a, t, [t[0]] + b, rest);
    AppendNil([t[0]]);
  }

  lemma KeySound(s: Bytes)
    requires ScanKey(s).Some?
    ensures var p := ScanKey(s).value; s == KeyText(p.node, false) + p.rest
  {
    var lead := Span(Space, s);
    SpanSplits(Space, s);
    StringSound(s[|lead|..]);
    var chars := ScanString(s[|lead|..]).value;
    var t := chars.rest;
    var after := Span(Space, t);
    SpanSplits(Space, t);
    var u := t[|after|..];
    hide ScanString, StringText;
    assert u == [COLON] + u[1..];
    Splice(t, after, u, [COLON], u[1..]);
    Splice(s[|lead|..], StringText(chars.node), t, after + [COLON], u[1..]);
    Splice(s, lead, s[|lead|..], StringText(chars.node) + (after + [COLON]), u[1..]);
  }

  lemma MemberSound(braces: bool, s: Bytes, depth: nat)
    requires depth <= MAX_DEPTH && ScanMember(braces, s, depth).Some?
    ensures var p := ScanMember(braces, s, depth).value; s == MemberText(p.node, braces, false) + p.rest
    decreases MAX_DEPTH + 1 - depth, 0, 1
  {
    hide ScanKey, ScanElement, ScanSpaced, KeyText, SpacedText, SpacedOk, KeyOk;
    if braces {
      KeySound(s);
      var key := ScanKey(s).value;
      ElementSound(Some(key.node), key.rest, depth);
      var m := ScanElement(Some(key.node), key.rest, depth).value;
      Splice(s, KeyText(key.node, false), key.rest, SpacedText(m.node.value, false) + m.node.trail, m.rest);
    } else {
      ElementSound(None, s, depth);
      var m := ScanElement(None, s, depth).value;
      NothingAdded(SpacedText(m.node.value, false) + m.node.trail);
    }
  }

  lemma ElementSound(key: Option<Key>, s: Bytes, depth: nat)
    requires depth <= MAX_DEPTH && (key.Some? ==> KeyOk(key.value) && Paired(key.value.chars)) && ScanElement(key, s, depth).Some?
    ensures var p := ScanElement(key, s, depth).value;
      s == SpacedText(p.node.value, false) + p.node.trail + p.rest
    decreases MAX_DEPTH + 1 - depth, 0, 0
  {
    SpacedSound(s, depth + 1);
    var value := ScanSpaced(s, depth + 1).value;
    hide ScanSpaced, SpacedText, SpacedOk;
    var trail := Span(Space, value.rest);
    SpanSplits(Space, value.rest);
    Splice(s, SpacedText(value.node, false), value.rest, trail, value.rest[|trail|..]);
  }

  // ----- completeness

  /** A value's text starts with neither whitespace nor a closing bracket. */
  lemma TextStart(v: Json)
    requires JsonOk(v)
    ensures var b := Peek(ValueText(v, false));
      && ValueText(v, false) != [] && !IsSpace(b) && b != Close(true) && b != Close(false) && b != COMMA
      && match v
         case Str(_) => b == QUOTE
         case Num(n) => b == MINUS || IsDigit(b)
         case Word(w) => b == w.Text()[0]
         case Empty(braces, _) => b == Open(braces)
         case Group(braces, _, _) => b == Open(braces)
  {
    hide CharsText, ItemsText, FractionText, ExponentText;
  }

  lemma SpacedComplete(s: Spaced, depth: nat, rest: Bytes)
    requires SpacedOk(s) && Within(s.value, depth) && Follows(s.value, rest)
    ensures depth <= MAX_DEPTH && ScanSpaced(SpacedText(s, false) + rest, depth) == Some(Parsed(s, rest))
    decreases s
  {
    ValueComplete(s.value, depth, rest);
    TextStart(s.value);
    hide ScanValue, ValueText;
    var text := ValueText(s.value, false);
    Regroup(s.lead, text, rest);
    Behind(text, rest);
    SpanOf(Space, s.lead, text + rest);
  }

  lemma ValueComplete(v: Json, depth: nat, rest: Bytes)
    requires JsonOk(v) && Within(v, depth) && Follows(v, rest)
    ensures ScanValue(ValueText(v, false) + rest, depth) == Some(Parsed(v, rest))
    decreases v
  {
    hide ItemsWithin;
    TextStart(v);
    Behind(ValueText(v, false), rest);
    match v
    case Str(chars) =>
      QuotedComplete(chars, depth, rest);
      hide ScanValue, StringText, CharsOk, Paired;
    case Num(n) =>
      NumComplete(n, depth, rest);
      hide ScanValue, NumberText, NumberOk;
    case Word(w) =>
      WordComplete(w, depth, rest);
      hide ScanValue, Literal.Text;
    case Empty(braces, pad) =>
      EmptyComplete(braces, pad, depth, rest);
      hide ScanGroup, ValueText;
    case Group(braces, pad, items) =>
      GroupComplete(braces, pad, items, depth, rest);
      hide ScanGroup, ValueText, ItemsOk;
  }

  lemma QuotedComplete(chars: seq<Char>, depth: nat, rest: Bytes)
    requires CharsOk(chars) && Paired(chars) && depth <= MAX_DEPTH
    ensures ScanValue(StringText(chars) + rest, depth) == Some(Parsed(Str(chars), rest))
  {
    StringComplete(chars, rest);
    assert (StringText(chars) + rest)[0] == QUOTE;
    hide ScanString, StringText, CharsOk, Paired;
  }

  lemma NumComplete(n: Number, depth: nat, rest: Bytes)
    requires NumberOk(n) && NumberFollow(n, rest) && depth <= MAX_DEPTH
    ensures ScanValue(NumberText(n) + rest, depth) == Some(Parsed(Num(n), rest))
  {
    NumberComplete(n, rest);
    TextStart(Num(n));
    Behind(NumberText(n), rest);
    hide ScanNumber, NumberText, NumberOk, NumberFollow;
  }

  lemma WordComplete(w: Literal, depth: nat, rest: Bytes)
    requires depth <= MAX_DEPTH
    ensures ScanValue(w.Text() + rest, depth) == Some(Parsed(Word(w), rest))
  {
    hide ScanGroup, ScanNumber, ScanString;
    var s := w.Text() + rest;
    assert s[0] == w.Text()[0] && s[..|w.Text()|] == w.Text() && s[|w.Text()|..] == rest;
  }

  lemma EmptyComplete(braces: bool, pad: Bytes, depth: nat, rest: Bytes)
    requires JsonOk(Empty(braces, pad)) && depth <= MAX_DEPTH
    ensures var s := ValueText(Empty(braces, pad), false) + rest;
      Peek(s) == Open(braces) && ScanGroup(braces, s, depth) == Some(Parsed(Empty(braces, pad), rest))
  {
    var tail := [Close(braces)];
    hide ScanItems, Span;
    Append3([Open(braces)], pad, tail);
    Regroup([Open(braces)], pad + tail, rest);
    Regroup(pad, tail, rest);
    Head(Open(braces), pad + (tail + rest));
    Head(Close(braces), rest);
    SpanOf(Space, pad, tail + rest);
  }

  lemma GroupComplete(braces: bool, pad: Bytes, items: Items, depth: nat, rest: Bytes)
    requires JsonOk(Group(braces, pad, items)) && Within(Group(braces, pad, items), depth)
    ensures var s := ValueText(Group(braces, pad, items), false) + rest;
      Peek(s) == Open(braces) && ScanGroup(braces, s, depth) == Some(Parsed(Group(braces, pad, items), rest))
    decreases items, 1
  {
    var text := ItemsText(items, braces, false);
    ItemsComplete(items, braces, depth, MAX_FIELDS - 1, rest);
    ItemsStart(items, braces, rest);
    hide ItemsText, ItemsOk, ScanItems, Span;
    var t := text + rest;
    Append3([Open(braces)], pad, text);
    Regroup([Open(braces)], pad + text, rest);
    Regroup(pad, text, rest);
    Head(Open(braces), pad + t);
    SpanOf(Space, pad, t);
  }

  /** A first member without whitespace in front starts with its key or its value. */
  lemma ItemsStart(items: Items, braces: bool, rest: Bytes)
    requires ItemsOk(items, braces) && MemberLead(items.member) == []
    ensures var b := Peek(ItemsText(items, braces, false) + rest); !IsSpace(b) && b != Close(braces)
  {
    var m := items.member;
    var text := MemberText(m, braces, false);
    MemberStart(m, braces);
    UnfoldItems(items, braces);
    hide MemberText, ItemsText, ItemsOk;
  }

  lemma MemberStart(m: Member, braces: bool)
    requires MemberOk(m, braces) && MemberLead(m) == []
    ensures var text := MemberText(m, braces, false); text != [] && !IsSpace(text[0]) && text[0] != Close(braces)
  {
    hide ValueText, JsonOk, CharsText;
    assert SpacedOk(m.value);
    if m.key.None? {
      TextStart(m.value.value);
      assert SpacedText(m.value, false)[0] == ValueText(m.value.value, false)[0];
    }
  }

  lemma UnfoldItems(items: Items, braces: bool)
    requires ItemsOk(items, braces)
    ensures ItemsText(items, braces, false) == MemberText(items.member, braces, false)
         + if items.Last? then [Close(braces)] else [COMMA] + ItemsText(items.rest, braces, false)
  {
    hide MemberText;
  }

  lemma MemberLast(m: Member, braces: bool, depth: nat, room: nat, rest: Bytes)
    requires depth <= MAX_DEPTH && room < MAX_FIELDS && MemberOk(m, braces) && MemberWithin(m, depth + 1)
    ensures ScanItems(braces, MemberText(m, braces, false) + ([Close(braces)] + rest), depth, room) == Some(Parsed(Last(m), rest))
    decreases m, 2
  {
    Head(Close(braces), rest);
    MemberComplete(m, braces, depth, [Close(braces)] + rest);
    hide MemberText, MemberOk, MemberWithin, ScanMember;
  }

  lemma MemberNext(m: Member, braces: bool, depth: nat, room: nat, s: Bytes)
    requires depth <= MAX_DEPTH && 0 < room < MAX_FIELDS && MemberOk(m, braces) && MemberWithin(m, depth + 1)
    ensures var more := ScanItems(braces, s, depth, room - 1);
      ScanItems(braces, MemberText(m, braces, false) + ([COMMA] + s), depth, room)
      == if more.None? then None else Some(Parsed(More(m, more.value.node), more.value.rest))
    decreases m, 2
  {
    Head(COMMA, s);
    MemberComplete(m, braces, depth, [COMMA] + s);
    hide MemberText, MemberOk, MemberWithin, ScanMember;
  }

  lemma ItemsComplete(items: Items, braces: bool, depth: nat, room: nat, rest: Bytes)
    requires depth <= MAX_DEPTH && room < MAX_FIELDS && ItemsOk(items, braces)
    requires ItemsWithin(items, depth + 1) && Length(items) <= room + 1
    ensures ScanItems(braces, ItemsText(items, braces, false) + rest, depth, room) == Some(Parsed(items, rest))
    decreases items, 0
  {
    hide MemberText, MemberOk, MemberWithin, ItemsText, ScanItems;
    var m, text := items.member, MemberText(items.member, braces, false);
    UnfoldItems(items, braces);
    if items.Last? {
      Regroup(text, [Close(braces)], rest);
      MemberLast(m, braces, depth, room, rest);
    } else {
      var more := ItemsText(items.rest, braces, false);
      ItemsComplete(items.rest, braces, depth, room - 1, rest);
      Regroup([COMMA], more, rest);
      Regroup(text, [COMMA] + more, rest);
      MemberNext(m, braces, depth, room, more + rest);
    }
  }

  lemma KeyComplete(key: Key, rest: Bytes)
    requires KeyOk(key) && Paired(key.chars)
    ensures ScanKey(KeyText(key, false) + rest) == Some(Parsed(key, rest))
  {
    var u := [COLON] + rest;
    var t := key.after + u;
    var text := StringText(key.chars);
    Regroup(key.after, [COLON], rest);
    Regroup(text, key.after + [COLON], rest);
    Regroup(key.lead, text + (key.after + [COLON]), rest);
    StringComplete(key.chars, t);
    SpanOf(Space, key.lead, text + t);
    SpanOf(Space, key.after, u);
    hide ScanString, CharsText, Span;
    Head(COLON, rest);
  }

  lemma MemberComplete(m: Member, braces: bool, depth: nat, rest: Bytes)
    requires depth <= MAX_DEPTH && MemberOk(m, braces) && MemberWithin(m, depth + 1)
    requires (Peek(rest) == COMMA || Peek(rest) == Close(braces))
    ensures ScanMember(braces, MemberText(m, braces, false) + rest, depth) == Some(Parsed(m, rest))
    decreases m, 1
  {
    var text := SpacedText(m.value, false) + m.trail;
    ElementComplete(m, depth, rest);
    hide SpacedText, SpacedOk, ScanElement, ScanKey, KeyText, KeyOk;
    if braces {
      Regroup(KeyText(m.key.value, false), text, rest);
      KeyComplete(m.key.value, text + rest);
    } else {
      NothingAdded(text);
    }
  }

  lemma ElementComplete(m: Member, depth: nat, rest: Bytes)
    requires depth <= MAX_DEPTH && (m.key.Some? ==> KeyOk(m.key.value))
    requires SpacedOk(m.value) && MemberWithin(m, depth + 1) && Space.All(m.trail)
    requires Peek(rest) == COMMA || Peek(rest) == Close(true) || Peek(rest) == Close(false)
    ensures ScanElement(m.key, SpacedText(m.value, false) + m.trail + rest, depth) == Some(Parsed(m, rest))
    decreases m, 0
  {
    var text := SpacedText(m.value, false);
    Regroup(text, m.trail, rest);
    assert Peek(m.trail + rest) == if m.trail == [] then Peek(rest) else m.trail[0];
    assert m.trail != [] ==> IsSpace(m.trail[0]);
    SpacedComplete(m.value, depth + 1, m.trail + rest);
    hide ScanSpaced, SpacedText, SpacedOk;
    SpanOf(Space, m.trail, rest);
  }

  /** The accepted language: a value is read off the front of the input, leaving
      `rest`, exactly when the input is the text of that value followed by `rest`. */
  lemma AcceptsExactly(input: Bytes, depth: nat, v: Spaced, rest: Bytes)
    requires depth <= MAX_DEPTH + 1
    ensures ScanSpaced(input, depth) == Some(Parsed(v, rest))
       <==> SpacedOk(v) && Within(v.value, depth) && input == SpacedText(v, false) + rest && Follows(v.value, rest)
  {
    if ScanSpaced(input, depth) == Some(Parsed(v, rest)) {
      SpacedSound(input, depth);
    }
    if SpacedOk(v) && Within(v.value, depth) && input == SpacedText(v, false) + rest && Follows(v.value, rest) {
      SpacedComplete(v, depth, rest);
    }
  }
}
