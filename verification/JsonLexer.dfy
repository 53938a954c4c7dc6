/** The streaming lexer: it advances over its input byte by byte, counts row bytes,
    and keeps at most one bounded field. */
module JsonLexer {
  import opened Common
  import opened JsonText
  import opened JsonScan
  import opened JsonReads
  import Utf8

  class Lexer {
    var rest: Bytes
    var bytes: nat
    var row: bool
    var line: bool

    constructor (input: Bytes)
      ensures View() == State(input, 0, false, false)
    {
      rest, bytes, row, line := input, 0, false, false;
    }

    ghost function View(): State
      reads this
    {
      State(rest, bytes, row, line)
    }

    /** The next byte, or 0 at the end. */
    function PeekByte(): byte
      reads this
    {
      Peek(rest)
    }

    method Take(out: Option<Bytes>) returns (ok: bool, b: byte, out': Option<Bytes>)
      modifies this`rest, this`bytes
      ensures Performs(old(View()), out, ReadByte(old(rest)), ok, View(), out')
      ensures ok ==> old(rest) != [] && b == old(rest)[0] && rest == old(rest)[1..]
    {
      if rest == [] {
        return false, 0, out;
      }
      b, rest, out' := rest[0], rest[1..], out;
      if row {
        bytes := bytes + 1;
        if bytes > MAX_ROW_BYTES || (line && (b == 0x0a || b == 0x0d)) {
          assert !NoBreak([b]) || bytes > MAX_ROW_BYTES by {
            if bytes <= MAX_ROW_BYTES {
              assert [b][0] == b;
            }
          }
          return false, 0, out;
        }
      }
      if out.Some? {
        if |out.value| >= MAX_FIELD_BYTES {
          return false, 0, out;
        }
        out' := Some(out.value + [b]);
      }
      return true, b, out';
    }

    method Expect(want: byte, out: Option<Bytes>) returns (ok: bool, out': Option<Bytes>)
      modifies this`rest, this`bytes
      ensures Performs(old(View()), out, ReadExpected(old(rest), want), ok, View(), out')
    {
      var b;
      ok, b, out' := Take(out);
      ok := ok && b == want;
    }

    /** Takes the longest run of one class. */
    method Run(c: Class, out: Option<Bytes>) returns (ok: bool, out': Option<Bytes>)
      modifies this`rest, this`bytes
      ensures Performs(old(View()), out, ReadRun(c, old(rest)), ok, View(), out')
    {
      ghost var s0, whole := View(), ReadRun(c, rest);
      ghost var done := Kept([], rest);
      Begin(s0, out, whole);
      out' := out;
      while c.Has(PeekByte())
        invariant Under(s0, out, whole, done, View(), out', ReadRun(c, rest))
        decreases |rest|
      {
        ghost var s, before := View(), out';
        RunNext(c, rest);
        var b;
        ok, b, out' := Take(out');
        Step(s0, out, whole, done, s, before, ReadByte(s.rest), ok, View(), out', ReadRun(c, s.rest[1..]));
        if !ok {
          return;
        }
        done := Bind(done, ReadByte(s.rest));
      }
      RunEnd(c, rest);
      Begin(View(), out', ReadRun(c, rest));
      Finish(s0, out, whole, done, View(), out', ReadRun(c, rest), true, View(), out');
      ok := true;
    }

    method Space() returns (ok: bool)
      modifies this`rest, this`bytes
      ensures Performs(old(View()), None, ReadSpace(old(rest)), ok, View(), None)
    {
      var out;
      ok, out := Run(Class.Space, None);
    }

    /** Space between kept bytes: nothing of it is kept. */
    method SkipSpace(ghost out: Option<Bytes>) returns (ok: bool)
      modifies this`rest, this`bytes
      ensures Performs(old(View()), out, ReadSpace(old(rest)), ok, View(), out)
    {
      ghost var s := View();
      ok := Space();
      KeepsNothing(s, ReadSpace(s.rest), ok, View(), out);
    }

    // ----- strings

    /** Four hexadecimal digits. */
    method Hex(out: Option<Bytes>) returns (ok: bool, value: int, out': Option<Bytes>)
      modifies this`rest, this`bytes
      ensures Performs(old(View()), out, ReadHex(old(rest)), ok, View(), out')
      ensures ok ==> ScanHex(old(rest)).Some? && value == UnitValue(ScanHex(old(rest)).value.node)
    {
      hide Performs, Under, IsUnit, UnitValue;
      ghost var s0, whole := View(), ReadHex(rest);
      ghost var done := Kept([], rest);
      Begin(s0, out, whole);
      value, out' := 0, out;
      for i := 0 to 4
        invariant HexUnder(s0.rest, i, value) && rest == s0.rest[i..]
        invariant Under(s0, out, whole, done, View(), out', ReadHexRest(s0.rest, i))
      {
        ghost var s, before := View(), out';
        HexNext(s0.rest, i);
        var b;
        ok, b, out' := Take(out');
        Step(s0, out, whole, done, s, before, ReadByte(s.rest), ok, View(), out', ReadHexRest(s0.rest, i + 1));
        if !ok {
          return;
        }
        if !IsHex(b) {
          Refuses(s0, out, View(), out');
          return false, 0, out';
        }
        done := Bind(done, ReadByte(s.rest));
        value := value * 16 + HexDigit(b);
      }
      HexAll(s0.rest, value);
      Begin(View(), out', ReadHexRest(s0.rest, 4));
      Finish(s0, out, whole, done, View(), out', ReadHexRest(s0.rest, 4), true, View(), out');
      ok := true;
    }

    /** The rest of an escaped code unit, after "\\u". */
    method Unit(out: Option<Bytes>) returns (ok: bool, out': Option<Bytes>)
      modifies this`rest, this`bytes
      ensures Performs(old(View()), out, ReadUnit(old(rest)), ok, View(), out')
    {
      ghost var s0, whole := View(), ReadUnit(rest);
      ghost var a := ReadHex(rest);
      ghost var b := ReadExpected(RestOf(a), BACKSLASH);
      ghost var c := ReadExpected(RestOf(b), UNICODE);
      ghost var d := ReadLow(RestOf(c));
      var u;
      ok, u, out' := Hex(out);
      if !ok {
        ChainFails(s0, out, a, View(), out', Bind(b, Bind(c, d)));
        return;
      }
      if 0xdc00 <= u <= 0xdfff {
        return false, out';
      }
      if 0xd800 <= u <= 0xdbff {
        ghost var s, before := View(), out';
        ok, out' := Expect(BACKSLASH, out');
        Step(s0, out, whole, a, s, before, b, ok, View(), out', Bind(c, d));
        if !ok {
          return;
        }
        s, before := View(), out';
        ok, out' := Expect(UNICODE, out');
        Step(s0, out, whole, Bind(a, b), s, before, c, ok, View(), out', d);
        if !ok {
          return;
        }
        s, before := View(), out';
        var low;
        ok, low, out' := Hex(out');
        ok := ok && 0xdc00 <= low <= 0xdfff;
        Finish(s0, out, whole, Bind(Bind(a, b), c), s, before, d, ok, View(), out');
      }
    }

    /** The rest of an escaped character, after the backslash. */
    method EscapeRest(out: Option<Bytes>) returns (ok: bool, out': Option<Bytes>)
      modifies this`rest, this`bytes
      ensures Performs(old(View()), out, ReadEscape(old(rest)), ok, View(), out')
    {
      hide Performs, Under, IsEscape;
      ghost var s0, whole := View(), ReadEscape(rest);
      var e;
      ok, e, out' := Take(out);
      ghost var s1, out1 := View(), out';
      if !ok {
        ChainFails(s0, out, ReadByte(s0.rest), s1, out1, EscapeMore(s0.rest));
        return;
      }
      if e == UNICODE {
        ok, out' := Unit(out');
        Chain(s0, out, ReadByte(s0.rest), s1, out1, ReadUnit(s1.rest), ok, View(), out');
      } else if !IsEscape(e) {
        Refuses(s0, out, s1, out1);
        return false, out';
      } else {
        Begin(s1, out1, EscapeMore(s0.rest));
        Chain(s0, out, ReadByte(s0.rest), s1, out1, EscapeMore(s0.rest), true, s1, out1);
      }
    }

    /** The bytes of a multi-byte character after the first. */
    method WideRest(ghost s0: State, ghost out0: Option<Bytes>, first: byte, out: Option<Bytes>)
      returns (ok: bool, out': Option<Bytes>, encoded: Bytes)
      requires s0.rest != [] && s0.rest[0] == first && first >= 0x80
      requires Performs(s0, out0, ReadByte(s0.rest), true, View(), out)
      modifies this`rest, this`bytes
      ensures Performs(s0, out0, ReadChar(s0.rest), ok, View(), out')
      ensures ok ==>
        (Utf8.Width(first) <= |s0.rest| && encoded == s0.rest[..Utf8.Width(first)] && Utf8.WellFormed(encoded))
    {
      WideSteps(s0.rest);
      assert rest == s0.rest[1..];
      hide Performs, Under, ReadChar, Utf8.WellFormed, ReadByte, ReadWide;
      var n := Utf8.Width(first);
      ghost var whole := ReadChar(s0.rest);
      out', encoded := out, [first];
      if n == 0 {
        Refuses(s0, out0, View(), out');
        return false, out', encoded;
      }
      ghost var done := ReadByte(s0.rest);
      WideNext(s0.rest, 0, n);
      FirstStep(s0, out0, whole, done, true, View(), out', ReadWide(s0.rest, 1, n));
      for i := 1 to n
        invariant i <= |s0.rest| && encoded == s0.rest[..i] && rest == s0.rest[i..]
        invariant Under(s0, out0, whole, done, View(), out', ReadWide(s0.rest, i, n))
      {
        ghost var s, before := View(), out';
        var b;
        ok, b, out' := Take(out');
        WideStep(s0, out0, whole, done, s, before, s0.rest, i, n, ok, View(), out');
        if !ok {
          return;
        }
        done := Bind(done, ReadByte(s.rest));
        encoded := encoded + [b];
      }
      ok := Utf8.WellFormed(encoded);
      WideEnd(s0, out0, whole, done, View(), out', s0.rest, n);
    }

    /** A quoted string with its quotes. */
    method Quoted(out: Option<Bytes>) returns (ok: bool, out': Option<Bytes>)
      modifies this`rest, this`bytes
      ensures Performs(old(View()), out, ReadString(old(rest)), ok, View(), out')
    {
      hide Performs, Under, ReadChar, ReadEscape, ReadExpected;
      ghost var s0, whole := View(), ReadString(rest);
      StringSteps(rest);
      ghost var done := ReadExpected(rest, QUOTE);
      ok, out' := Expect(QUOTE, out);
      FirstStep(s0, out, whole, done, ok, View(), out', ReadChars(RestOf(done)));
      if !ok {
        return;
      }
      while true
        invariant Under(s0, out, whole, done, View(), out', ReadChars(rest))
        decreases |rest|
      {
        ghost var s, before := View(), out';
        var b;
        ok, b, out' := Take(out');
        ghost var s1, out1 := View(), out';
        if !ok {
          CharsUnread(s, before, s1, out1);
          Finish(s0, out, whole, done, s, before, ReadChars(s.rest), false, s1, out1);
          return;
        }
        if b == QUOTE {
          CharsEnd(s.rest);
          Finish(s0, out, whole, done, s, before, ReadChars(s.rest), true, s1, out1);
          return;
        }
        CharsSteps(s.rest);
        if b < 0x20 {
          CharRefused(s.rest);
          Refuses(s, before, s1, out1);
          ok := false;
        } else if b == BACKSLASH {
          EscapeSteps(s.rest);
          ok, out' := EscapeRest(out');
          Chain(s, before, ReadByte(s.rest), s1, out1, ReadEscape(s1.rest), ok, View(), out');
        } else if b >= 0x80 {
          var encoded;
          ok, out', encoded := WideRest(s, before, b, out');
        } else {
          CharPlain(s.rest);
        }
        Step(s0, out, whole, done, s, before, ReadChar(s.rest), ok, View(), out', ReadChars(RestOf(ReadChar(s.rest))));
        if !ok {
          return;
        }
        CharAdvanced(s, before, View(), out');
        done := Bind(done, ReadChar(s.rest));
      }
    }

    // ----- numbers

    method Digits(out: Option<Bytes>) returns (ok: bool, out': Option<Bytes>)
      modifies this`rest, this`bytes
      ensures Performs(old(View()), out, ReadDigits(old(rest)), ok, View(), out')
    {
      DigitsSteps(rest);
      if !IsDigit(PeekByte()) {
        return false, out;
      }
      ok, out' := Run(Digit, out);
    }

    method Whole(out: Option<Bytes>) returns (ok: bool, out': Option<Bytes>)
      modifies this`rest, this`bytes
      ensures Performs(old(View()), out, ReadWhole(old(rest)), ok, View(), out')
    {
      hide Performs;
      WholeSteps(rest);
      ghost var s0 := View();
      if PeekByte() == ZERO {
        var b;
        ok, b, out' := Take(out);
        if !ok {
          ZeroUnread(s0, out, View(), out');
        } else if IsDigit(PeekByte()) {
          Refuses(s0, out, View(), out');
          ok := false;
        }
      } else {
        ok, out' := Digits(out);
      }
    }

    method Fraction(out: Option<Bytes>) returns (ok: bool, out': Option<Bytes>)
      modifies this`rest, this`bytes
      ensures Performs(old(View()), out, ReadFraction(old(rest)), ok, View(), out')
    {
      hide Performs, Under, ReadDigits, ReadFraction;
      FractionSteps(rest);
      ghost var s0 := View();
      if PeekByte() != POINT {
        Idle(s0, out);
        return true, out;
      }
      var b;
      ok, b, out' := Take(out);
      FirstStep(s0, out, ReadFraction(s0.rest), ReadByte(s0.rest), ok, View(), out', ReadDigits(s0.rest[1..]));
      if !ok {
        return;
      }
      ghost var s, before := View(), out';
      ok, out' := Digits(out');
      Finish(s0, out, ReadFraction(s0.rest), ReadByte(s0.rest), s, before, ReadDigits(s.rest), ok, View(), out');
    }

    method Exponent(out: Option<Bytes>) returns (ok: bool, out': Option<Bytes>)
      modifies this`rest, this`bytes
      ensures Performs(old(View()), out, ReadExponent(old(rest)), ok, View(), out')
    {
      hide Performs, Under, ReadDigits, ReadExponent, ReadSign;
      ExponentSteps(rest);
      ghost var s0, whole := View(), ReadExponent(rest);
      if !IsMark(PeekByte()) {
        Idle(s0, out);
        return true, out;
      }
      var b;
      ghost var sign := ReadSign(rest[1..]);
      ok, b, out' := Take(out);
      FirstStep(s0, out, whole, ReadByte(s0.rest), ok, View(), out', Bind(sign, ReadDigits(RestOf(sign))));
      if !ok {
        return;
      }
      ghost var s, before := View(), out';
      ok, out' := Optional(IsSign(PeekByte()), out');
      SignByte(s.rest);
      Step(s0, out, whole, ReadByte(s0.rest), s, before, sign, ok, View(), out', ReadDigits(RestOf(sign)));
      if !ok {
        return;
      }
      Reached(s, before, sign, View(), out');
      s, before := View(), out';
      ok, out' := Digits(out');
      Finish(s0, out, whole, Bind(ReadByte(s0.rest), sign), s, before, ReadDigits(s.rest), ok, View(), out');
    }

    /** Takes the next byte if it is there to be taken. */
    method Optional(present: bool, out: Option<Bytes>) returns (ok: bool, out': Option<Bytes>)
      requires present ==> rest != []
      modifies this`rest, this`bytes
      ensures Performs(old(View()), out, if present then ReadByte(old(rest)) else Kept([], old(rest)), ok, View(), out')
    {
      if present {
        var b;
        ok, b, out' := Take(out);
      } else {
        Idle(View(), out);
        ok, out' := true, out;
      }
    }

    method Number(out: Option<Bytes>) returns (ok: bool, out': Option<Bytes>)
      modifies this`rest, this`bytes
      ensures Performs(old(View()), out, ReadNumber(old(rest)), ok, View(), out')
    {
      hide Performs, Under, ReadNumber, ReadMinus, ReadWhole, ReadFraction, ReadExponent;
      ghost var s0, whole := View(), ReadNumber(rest);
      NumberSteps(rest);
      MinusByte(rest);
      ghost var a := ReadMinus(rest);
      ghost var b := ReadWhole(RestOf(a));
      ghost var c := ReadFraction(RestOf(b));
      ghost var d := ReadExponent(RestOf(c));
      ok, out' := Optional(PeekByte() == MINUS, out);
      FirstStep(s0, out, whole, a, ok, View(), out', Bind(b, Bind(c, d)));
      if !ok {
        return;
      }
      ghost var s, before := View(), out';
      ok, out' := Whole(out');
      Step(s0, out, whole, a, s, before, b, ok, View(), out', Bind(c, d));
      if !ok {
        return;
      }
      Reached(s, before, b, View(), out');
      s, before := View(), out';
      ok, out' := Fraction(out');
      Step(s0, out, whole, Bind(a, b), s, before, c, ok, View(), out', d);
      if !ok {
        return;
      }
      Reached(s, before, c, View(), out');
      s, before := View(), out';
      ok, out' := Exponent(out');
      Finish(s0, out, whole, Bind(Bind(a, b), c), s, before, d, ok, View(), out');
    }

    // ----- values

    method Word(w: Literal, out: Option<Bytes>) returns (ok: bool, out': Option<Bytes>)
      modifies this`rest, this`bytes
      ensures Performs(old(View()), out, ReadWord(w, old(rest)), ok, View(), out')
    {
      hide Performs, Under, ReadWord, WordRest, Literal.Text;
      ghost var s0, whole := View(), ReadWord(w, rest);
      var text := w.Text();
      WordStart(w, rest);
      Begin(s0, out, whole);
      ghost var done := Kept([], rest);
      out' := out;
      for i := 0 to |text|
        invariant i <= |s0.rest| && s0.rest[..i] == text[..i] && rest == s0.rest[i..]
        invariant Under(s0, out, whole, done, View(), out', WordRest(w, s0.rest, i))
      {
        ghost var s, before := View(), out';
        WordNext(w, s0.rest, i);
        ok, out' := Expect(text[i], out');
        ghost var r := ReadExpected(s.rest, text[i]);
        Step(s0, out, whole, done, s, before, r, ok, View(), out', WordRest(w, s0.rest, i + 1));
        if !ok {
          return;
        }
        Reached(s, before, r, View(), out');
        done := Bind(done, r);
      }
      WordEnd(w, s0.rest);
      Idle(View(), out');
      Finish(s0, out, whole, done, View(), out', Kept([], rest), true, View(), out');
      ok := true;
    }

    /** Any value, with the whitespace in front of it. */
    method Value(out: Option<Bytes>, depth: nat) returns (ok: bool, out': Option<Bytes>)
      requires depth <= MAX_DEPTH + 1
      modifies this`rest, this`bytes
      ensures Performs(old(View()), out, ReadSpaced(old(rest), depth), ok, View(), out')
      decreases MAX_DEPTH + 1 - depth, 2
    {
      hide Performs, Under, ReadValue, ReadSpace, ReadString, ReadNumber, ReadWord;
      if depth > MAX_DEPTH {
        Refuses(View(), out, View(), out);
        return false, out;
      }
      hide ReadSpaced;
      ghost var s0, whole, lead := View(), ReadSpaced(rest, depth), ReadSpace(rest);
      SpacedSteps(rest, depth);
      ok := SkipSpace(out);
      FirstStep(s0, out, whole, lead, ok, View(), out, ReadValue(RestOf(lead), depth));
      if !ok {
        return false, out;
      }
      ghost var s := View();
      var b := PeekByte();
      if b == Open(true) || b == Open(false) {
        ok, out' := Group(b == Open(true), out, depth);
      } else {
        ValueSteps(rest, depth);
        if b == QUOTE {
          ok, out' := Quoted(out);
        } else if b == 0x74 || b == 0x66 || b == 0x6e {
          ok, out' := Word(if b == 0x74 then True else if b == 0x66 then False else Null, out);
        } else {
          ok, out' := Number(out);
        }
      }
      Finish(s0, out, whole, lead, s, out, ReadValue(s.rest, depth), ok, View(), out');
    }

    /** An object or array. */
    method Group(braces: bool, out: Option<Bytes>, depth: nat) returns (ok: bool, out': Option<Bytes>)
      requires depth <= MAX_DEPTH && Peek(rest) == Open(braces)
      modifies this`rest, this`bytes
      ensures Performs(old(View()), out, ReadValue(old(rest), depth), ok, View(), out')
      decreases MAX_DEPTH + 1 - depth, 1
    {
      hide Performs, Under, ReadValue, ReadItems, ReadMember, ReadSpace, ItemsTail;
      ghost var s0, whole := View(), ReadValue(rest, depth);
      GroupSteps(braces, rest, depth);
      ghost var a := ReadExpected(rest, Open(braces));
      ghost var b := ReadSpace(RestOf(a));
      ghost var left := if Peek(RestOf(b)) == Close(braces) then ReadExpected(RestOf(b), Close(braces))
                        else ReadItems(braces, RestOf(b), depth, MAX_FIELDS - 1);
      var open;
      ok, open, out' := Take(out);
      FirstStep(s0, out, whole, a, ok, View(), out', Bind(b, left));
      if !ok {
        return;
      }
      ghost var s, before := View(), out';
      ok := SkipSpace(out');
      Step(s0, out, whole, a, s, before, b, ok, View(), out', left);
      if !ok {
        return;
      }
      Reached(s, before, b, View(), out');
      ghost var done := Bind(a, b);
      s, before := View(), out';
      if PeekByte() == Close(braces) {
        ok, out' := Expect(Close(braces), out');
        Finish(s0, out, whole, done, s, before, left, ok, View(), out');
        return;
      }
      for n := 0 to MAX_FIELDS
        invariant Under(s0, out, whole, done, View(), out',
                        if n < MAX_FIELDS then ReadItems(braces, rest, depth, MAX_FIELDS - 1 - n) else None)
      {
        s, before := View(), out';
        ItemsSteps(braces, rest, depth, MAX_FIELDS - 1 - n);
        ghost var m := ReadMember(braces, rest, depth);
        ghost var tail := ItemsTail(braces, RestOf(m), depth, MAX_FIELDS - 1 - n);
        ok, out' := Member(braces, out', depth);
        Step(s0, out, whole, done, s, before, m, ok, View(), out', tail);
        if !ok {
          return;
        }
        Reached(s, before, m, View(), out');
        done := Bind(done, m);
        s, before := View(), out';
        TailSteps(braces, rest, depth, MAX_FIELDS - 1 - n);
        if PeekByte() == Close(braces) {
          ok, out' := Expect(Close(braces), out');
          Finish(s0, out, whole, done, s, before, tail, ok, View(), out');
          return;
        }
        ghost var comma := ReadExpected(rest, COMMA);
        ghost var next := if n + 1 < MAX_FIELDS then ReadItems(braces, RestOf(comma), depth, MAX_FIELDS - 2 - n) else None;
        ok, out' := Expect(COMMA, out');
        Step(s0, out, whole, done, s, before, comma, ok, View(), out', next);
        if !ok {
          return;
        }
        Reached(s, before, comma, View(), out');
        done := Bind(done, comma);
      }
      Refuses(View(), out', View(), out');
      Finish(s0, out, whole, done, View(), out', None, false, View(), out');
      ok := false;
    }

    /** A key and its colon. */
    method Key(out: Option<Bytes>) returns (ok: bool, out': Option<Bytes>)
      modifies this`rest, this`bytes
      ensures Performs(old(View()), out, ReadKey(old(rest)), ok, View(), out')
    {
      hide Performs, Under, ReadKey, ReadSpace, ReadString, ReadExpected;
      ghost var s0, whole := View(), ReadKey(rest);
      KeySteps(rest);
      ghost var a := ReadSpace(rest);
      ghost var b := ReadString(RestOf(a));
      ghost var c := ReadSpace(RestOf(b));
      ghost var d := ReadExpected(RestOf(c), COLON);
      ok := SkipSpace(out);
      out' := out;
      FirstStep(s0, out, whole, a, ok, View(), out, Bind(b, Bind(c, d)));
      if !ok {
        return;
      }
      ghost var s, before := View(), out';
      ok, out' := Quoted(out');
      Step(s0, out, whole, a, s, before, b, ok, View(), out', Bind(c, d));
      if !ok {
        return;
      }
      Reached(s, before, b, View(), out');
      s, before := View(), out';
      ok := SkipSpace(out');
      Step(s0, out, whole, Bind(a, b), s, before, c, ok, View(), out', d);
      if !ok {
        return;
      }
      Reached(s, before, c, View(), out');
      s, before := View(), out';
      ok, out' := Expect(COLON, out');
      Finish(s0, out, whole, Bind(Bind(a, b), c), s, before, d, ok, View(), out');
    }

    /** A value inside a group, with its key in an object. */
    method Member(braces: bool, out: Option<Bytes>, depth: nat) returns (ok: bool, out': Option<Bytes>)
      requires depth <= MAX_DEPTH
      modifies this`rest, this`bytes
      ensures Performs(old(View()), out, ReadMember(braces, old(rest), depth), ok, View(), out')
      decreases MAX_DEPTH + 1 - depth, 0
    {
      hide Performs, Under, ReadMember, ReadKey, ReadSpaced, ReadSpace;
      ghost var s0, whole := View(), ReadMember(braces, rest, depth);
      MemberSteps(braces, rest, depth);
      ghost var done := Kept([], rest);
      Begin(s0, out, whole);
      out' := out;
      if braces {
        ghost var key := ReadKey(rest);
        ok, out' := Key(out');
        FirstStep(s0, out, whole, key, ok, View(), out', ReadElement(RestOf(key), depth));
        if !ok {
          return;
        }
        done := key;
      }
      ghost var s, before := View(), out';
      ghost var v := ReadSpaced(rest, depth + 1);
      ok, out' := Value(out', depth + 1);
      Step(s0, out, whole, done, s, before, v, ok, View(), out', ReadSpace(RestOf(v)));
      if !ok {
        return;
      }
      Reached(s, before, v, View(), out');
      s, before := View(), out';
      ok := SkipSpace(out');
      Finish(s0, out, whole, Bind(done, v), s, before, ReadSpace(s.rest), ok, View(), out');
    }
  }

  /** The value of the first `i` digits, all hexadecimal. */
  ghost predicate HexUnder(s: Bytes, i: nat, value: int) {
    && i <= 4 && i <= |s| && (forall k :: 0 <= k < i ==> IsHex(s[k]))
    && value == HexValue(s, i)
  }

  ghost function HexValue(s: Bytes, i: nat): int
    requires i <= |s| && forall k :: 0 <= k < i ==> IsHex(s[k])
  {
    if i == 0 then 0 else HexValue(s, i - 1) * 16 + HexDigit(s[i-1])
  }

  lemma HexAll(s: Bytes, value: int)
    requires HexUnder(s, 4, value)
    ensures ScanHex(s) == Some(Parsed(s[..4], s[4..])) && value == UnitValue(s[..4])
    ensures ReadHexRest(s, 4) == Kept([], s[4..])
  {
    assert HexValue(s, 1) == HexDigit(s[0]);
    assert HexValue(s, 2) == HexDigit(s[0]) * 16 + HexDigit(s[1]);
    assert HexValue(s, 3) == (HexDigit(s[0]) * 16 + HexDigit(s[1])) * 16 + HexDigit(s[2]);
    assert s[4..4] == [];
    assert s[..4][0] == s[0] && s[..4][1] == s[1] && s[..4][2] == s[2] && s[..4][3] == s[3];
  }

  ghost function ReadHexRest(s: Bytes, i: nat): Option<Read>
    requires i <= 4
  {
    if ScanHex(s).None? then None else Kept(s[i..4], s[4..])
  }

  lemma HexNext(s: Bytes, i: nat)
    requires i < 4 && i <= |s|
    ensures ReadHexRest(s, i) == Bind(ReadByte(s[i..]), ReadHexRest(s, i + 1))
    ensures i < |s| && !IsHex(s[i]) ==> ReadHex(s) == None
  {
    if ScanHex(s).Some? {
      assert s[i..4] == [s[i]] + s[i+1..4];
    }
  }

  lemma CharAdvanced(s: State, out: Option<Bytes>, s': State, out': Option<Bytes>)
    requires s.rest != [] && s.rest[0] != QUOTE && Performs(s, out, ReadChar(s.rest), true, s', out')
    ensures s'.rest == RestOf(ReadChar(s.rest)) && |s'.rest| < |s.rest|
  {
  }

  /** One more byte of a multi-byte character. */
  lemma WideStep(s0: State, out0: Option<Bytes>, whole: Option<Read>, done: Option<Read>, s: State, out: Option<Bytes>,
                 input: Bytes, i: nat, n: nat, ok: bool, s': State, out': Option<Bytes>)
    requires i < n <= 4 && i <= |input| && s.rest == input[i..]
    requires Under(s0, out0, whole, done, s, out, ReadWide(input, i, n))
    requires Performs(s, out, ReadByte(s.rest), ok, s', out')
    ensures if ok then Under(s0, out0, whole, Bind(done, ReadByte(s.rest)), s', out', ReadWide(input, i + 1, n))
            else Performs(s0, out0, whole, false, s', out')
  {
    WideNext(input, i, n);
    hide Under, ReadWide;
    if i < |input| {
      Step(s0, out0, whole, done, s, out, ReadByte(s.rest), ok, s', out', ReadWide(input, i + 1, n));
    } else {
      hide Bind;
      Finish(s0, out0, whole, done, s, out, None, ok, s', out');
    }
  }

  lemma WideEnd(s0: State, out0: Option<Bytes>, whole: Option<Read>, done: Option<Read>, s: State, out: Option<Bytes>,
      input: Bytes, n: nat)
    requires n <= |input| && s.rest == input[n..] && Under(s0, out0, whole, done, s, out, ReadWide(input, n, n))
    ensures Performs(s0, out0, whole, Utf8.WellFormed(input[..n]), s, out)
  {
    var ok := Utf8.WellFormed(input[..n]);
    assert input[n..n] == [];
    if ok {
      Begin(s, out, ReadWide(input, n, n));
    }
    Finish(s0, out0, whole, done, s, out, ReadWide(input, n, n), ok, s, out);
  }

  lemma Idle(s: State, out: Option<Bytes>)
    ensures Performs(s, out, Kept([], s.rest), true, s, out)
  {
    if out.Some? {
      AppendNil(out.value);
    }
  }

  lemma Reached(s: State, out: Option<Bytes>, r: Option<Read>, s': State, out': Option<Bytes>)
    requires Performs(s, out, r, true, s', out')
    ensures s'.rest == RestOf(r)
  {
  }

  lemma ZeroUnread(s: State, out: Option<Bytes>, s': State, out': Option<Bytes>)
    requires Performs(s, out, ReadByte(s.rest), false, s', out') && Peek(s.rest) == ZERO
    ensures Performs(s, out, ReadWhole(s.rest), false, s', out')
  {
    WholeSteps(s.rest);
  }

  lemma TailSteps(braces: bool, t: Bytes, depth: nat, room: nat)
    requires depth <= MAX_DEPTH && room < MAX_FIELDS
    ensures ItemsTail(braces, t, depth, room) ==
      if Peek(t) == Close(braces) then ReadExpected(t, Close(braces))
      else Bind(ReadExpected(t, COMMA), if room == 0 then None else ReadItems(braces, RestOf(ReadExpected(t, COMMA)), depth, room - 1))
  {
    hide ReadItems;
  }

  lemma Refuses(s: State, out: Option<Bytes>, s': State, out': Option<Bytes>)
    ensures Performs(s, out, None, false, s', out')
  {
  }

  lemma RunNext(c: Class, s: Bytes)
    requires c.Has(Peek(s))
    ensures s != [] && ReadRun(c, s) == Bind(ReadByte(s), ReadRun(c, s[1..]))
  {
  }

  lemma RunEnd(c: Class, s: Bytes)
    requires !c.Has(Peek(s))
    ensures ReadRun(c, s) == Kept([], s)
  {
  }
}
