/** What one scanning step does to the lexer: the text it consumes, what it keeps of
    it, and how steps compose under the row and field limits. */
module JsonReads {
  import opened Common
  import opened JsonText
  import opened JsonScan
  import opened JsonLanguage
  import Utf8

  const MAX_ROW_BYTES: nat := 0x10000
  const MAX_FIELD_BYTES: nat := 0x2000

  /** The lexer's fields: unread input, and in a row its size so far; `line` rows
      must not contain line breaks. */
  datatype State = State(rest: Bytes, bytes: nat, row: bool, line: bool)

  /** One successful step: the text consumed, the part kept, and what is left. */
  datatype Read = Read(text: Bytes, kept: Bytes, rest: Bytes)

  predicate NoBreak(text: Bytes) {
    forall i :: 0 <= i < |text| ==> text[i] != 0x0a && text[i] != 0x0d
  }

  predicate RowAllows(s: State, text: Bytes) {
    s.row && text != [] ==> s.bytes + |text| <= MAX_ROW_BYTES && (s.line ==> NoBreak(text))
  }

  /** `out` is None when the value is discarded. */
  predicate FieldAllows(out: Option<Bytes>, kept: Bytes) {
    out.Some? && kept != [] ==> |out.value| + |kept| <= MAX_FIELD_BYTES
  }

  predicate Allows(s: State, out: Option<Bytes>, r: Read) {
    RowAllows(s, r.text) && FieldAllows(out, r.kept)
  }

  function Put(out: Option<Bytes>, kept: Bytes): Option<Bytes> {
    if out.None? then None else Some(out.value + kept)
  }

  function After(s: State, r: Read): State {
    s.(rest := r.rest, bytes := if s.row then s.bytes + |r.text| else s.bytes)
  }

  /** A step that reads `r` succeeds exactly when there is something to read and the
      limits allow it, and then has its full effect. */
  predicate Performs(s: State, out: Option<Bytes>, r: Option<Read>, ok: bool, s': State, out': Option<Bytes>) {
    && (ok <==> r.Some? && Allows(s, out, r.value))
    && (ok ==> s' == After(s, r.value) && out' == Put(out, r.value.kept))
  }

  /** One step, then another on what it left. */
  function Bind(a: Option<Read>, b: Option<Read>): Option<Read> {
    if a.None? || b.None? then None
    else Some(Read(a.value.text + b.value.text, a.value.kept + b.value.kept, b.value.rest))
  }

  lemma BindAssociative(a: Option<Read>, b: Option<Read>, c: Option<Read>)
    ensures Bind(Bind(a, b), c) == Bind(a, Bind(b, c))
  {
    if a.Some? && b.Some? && c.Some? {
      Append3(a.value.text, b.value.text, c.value.text);
      Append3(a.value.kept, b.value.kept, c.value.kept);
    }
  }

  lemma BindNothing(rest: Bytes, b: Option<Read>)
    ensures Bind(Some(Read([], [], rest)), b) == b
  {
    if b.Some? {
      NothingAdded(b.value.text);
      NothingAdded(b.value.kept);
    }
  }

  lemma NoBreakAppend(a: Bytes, b: Bytes)
    ensures NoBreak(a + b) <==> NoBreak(a) && NoBreak(b)
  {
    if NoBreak(a + b) {
      assert forall i :: 0 <= i < |a| ==> a[i] == (a + b)[i];
      assert forall i :: 0 <= i < |b| ==> b[i] == (a + b)[|a| + i];
    }
  }

  /** Limits checked step by step are limits on the whole. */
  lemma AllowsBind(s: State, out: Option<Bytes>, a: Read, b: Read)
    ensures Allows(s, out, Bind(Some(a), Some(b)).value) <==>
      (Allows(s, out, a) && Allows(After(s, a), Put(out, a.kept), b))
  {
    NoBreakAppend(a.text, b.text);
    assert NoBreak([]);
    hide NoBreak;
    assert a.text + b.text == [] <==> |a.text| + |b.text| == 0;
    assert a.kept + b.kept == [] <==> |a.kept| + |b.kept| == 0;
  }

  /** Two steps in a row. */
  lemma Chain(s: State, out: Option<Bytes>, a: Option<Read>, s1: State, out1: Option<Bytes>,
              b: Option<Read>, ok: bool, s2: State, out2: Option<Bytes>)
    requires Performs(s, out, a, true, s1, out1) && Performs(s1, out1, b, ok, s2, out2)
    ensures Performs(s, out, Bind(a, b), ok, s2, out2)
  {
    if b.Some? {
      AllowsBind(s, out, a.value, b.value);
      if out.Some? {
        Append3(out.value, a.value.kept, b.value.kept);
      }
    }
    hide Allows;
  }

  /** A failed first step fails the whole, whatever would come next. */
  lemma ChainFails(s: State, out: Option<Bytes>, a: Option<Read>, s1: State, out1: Option<Bytes>, b: Option<Read>)
    requires Performs(s, out, a, false, s1, out1)
    ensures Performs(s, out, Bind(a, b), false, s1, out1)
  {
    if a.Some? && b.Some? {
      AllowsBind(s, out, a.value, b.value);
    }
    hide Allows;
  }

  /** Progress through `whole`: `done` has been performed since `s0`, `left` is still
      to come. */
  ghost predicate Under(s0: State, out0: Option<Bytes>, whole: Option<Read>, done: Option<Read>, s: State,
      out: Option<Bytes>, left: Option<Read>) {
    Performs(s0, out0, done, true, s, out) && whole == Bind(done, left)
  }

  lemma Begin(s: State, out: Option<Bytes>, whole: Option<Read>)
    ensures Under(s, out, whole, Some(Read([], [], s.rest)), s, out, whole)
  {
    BindNothing(s.rest, whole);
    if out.Some? {
      AppendNil(out.value);
    }
  }

  /** The next step, with more to come after it. */
  lemma Step(s0: State, out0: Option<Bytes>, whole: Option<Read>, done: Option<Read>, s: State, out: Option<Bytes>,
             r: Option<Read>, ok: bool, s': State, out': Option<Bytes>, next: Option<Read>)
    requires Under(s0, out0, whole, done, s, out, Bind(r, next)) && Performs(s, out, r, ok, s', out')
    ensures if ok then Under(s0, out0, whole, Bind(done, r), s', out', next) else Performs(s0, out0, whole, false, s', out')
  {
    if ok {
      Chain(s0, out0, done, s, out, r, true, s', out');
      BindAssociative(done, r, next);
    } else {
      ChainFails(s, out, r, s', out', next);
      Chain(s0, out0, done, s, out, Bind(r, next), false, s', out');
    }
  }

  lemma FirstStep(s0: State, out0: Option<Bytes>, whole: Option<Read>, r: Option<Read>, ok: bool, s: State,
      out: Option<Bytes>, next: Option<Read>)
    requires Performs(s0, out0, r, ok, s, out) && whole == Bind(r, next)
    ensures if ok then Under(s0, out0, whole, r, s, out, next) && s.rest == RestOf(r) else Performs(s0, out0, whole, false, s, out)
  {
    if !ok {
      ChainFails(s0, out0, r, s, out, next);
    }
  }

  /** The last step. */
  lemma Finish(s0: State, out0: Option<Bytes>, whole: Option<Read>, done: Option<Read>, s: State, out: Option<Bytes>,
               r: Option<Read>, ok: bool, s': State, out': Option<Bytes>)
    requires Under(s0, out0, whole, done, s, out, r) && Performs(s, out, r, ok, s', out')
    ensures Performs(s0, out0, whole, ok, s', out')
  {
    Chain(s0, out0, done, s, out, r, ok, s', out');
  }

  /** A step that keeps nothing can be put between steps that keep. */
  lemma KeepsNothing(s: State, r: Option<Read>, ok: bool, s': State, out: Option<Bytes>)
    requires Performs(s, None, r, ok, s', None) && (r.Some? ==> r.value.kept == [])
    ensures Performs(s, out, r, ok, s', out)
  {
    if out.Some? {
      AppendNil(out.value);
    }
  }

  // ----- the steps

  function ReadByte(s: Bytes): Option<Read> {
    if s == [] then None else Some(Read([s[0]], [s[0]], s[1..]))
  }

  function ReadExpected(s: Bytes, want: byte): Option<Read> {
    if s != [] && s[0] == want then Some(Read([want], [want], s[1..])) else None
  }

  /** Text kept as it is. */
  function Kept(text: Bytes, rest: Bytes): Option<Read> {
    Some(Read(text, text, rest))
  }

  function ReadRun(c: Class, s: Bytes): Option<Read> {
    var run := Span(c, s);
    Kept(run, s[|run|..])
  }

  function ReadSpace(s: Bytes): Option<Read> {
    var run := Span(Space, s);
    Some(Read(run, [], s[|run|..]))
  }

  function ReadHex(s: Bytes): Option<Read> {
    var p := ScanHex(s);
    if p.None? then None else Kept(p.value.node, p.value.rest)
  }

  function ReadChar(s: Bytes): Option<Read>
    requires s != [] && s[0] != QUOTE
  {
    var p := ScanChar(s);
    if p.None? then None else Kept(CharText(p.value.node), p.value.rest)
  }

  function ReadChars(s: Bytes): Option<Read> {
    var p := ScanChars(s);
    if p.None? then None else Kept(CharsText(p.value.node) + [QUOTE], p.value.rest)
  }

  function ReadString(s: Bytes): Option<Read> {
    var p := ScanString(s);
    if p.None? then None else Kept(StringText(p.value.node), p.value.rest)
  }

  function ReadNumber(s: Bytes): Option<Read> {
    var p := ScanNumber(s);
    if p.None? then None else Kept(NumberText(p.value.node), p.value.rest)
  }

  function ReadMinus(s: Bytes): Option<Read> {
    if Peek(s) == MINUS then Kept([MINUS], s[1..]) else Kept([], s)
  }

  function ReadDigits(s: Bytes): Option<Read> {
    var p := ScanDigits(s);
    if p.None? then None else Kept(p.value.node, p.value.rest)
  }

  function ReadWhole(s: Bytes): Option<Read> {
    var p := ScanWhole(s);
    if p.None? then None else Kept(p.value.node, p.value.rest)
  }

  function ReadFraction(s: Bytes): Option<Read> {
    var p := ScanFraction(s);
    if p.None? then None else Kept(FractionText(p.value.node), p.value.rest)
  }

  function ReadSign(s: Bytes): Option<Read> {
    if IsSign(Peek(s)) then Kept([s[0]], s[1..]) else Kept([], s)
  }

  function ReadExponent(s: Bytes): Option<Read> {
    var p := ScanExponent(s);
    if p.None? then None else Kept(ExponentText(p.value.node), p.value.rest)
  }

  function ReadWord(w: Literal, s: Bytes): Option<Read> {
    var p := ScanWord(w, s);
    if p.None? then None else Kept(w.Text(), p.value.rest)
  }

  function ReadSpaced(s: Bytes, depth: nat): Option<Read>
    requires depth <= MAX_DEPTH + 1
  {
    var p := ScanSpaced(s, depth);
    if p.None? then None else Some(Read(SpacedText(p.value.node, false), SpacedText(p.value.node, true), p.value.rest))
  }

  function ReadValue(s: Bytes, depth: nat): Option<Read>
    requires depth <= MAX_DEPTH
  {
    var p := ScanValue(s, depth);
    if p.None? then None else Some(Read(ValueText(p.value.node, false), ValueText(p.value.node, true), p.value.rest))
  }

  function ReadItems(braces: bool, s: Bytes, depth: nat, room: nat): Option<Read>
    requires depth <= MAX_DEPTH && room < MAX_FIELDS
  {
    var p := ScanItems(braces, s, depth, room);
    if p.None? then None
    else Some(Read(ItemsText(p.value.node, braces, false), ItemsText(p.value.node, braces, true), p.value.rest))
  }

  function ReadKey(s: Bytes): Option<Read> {
    var p := ScanKey(s);
    if p.None? then None else Some(Read(KeyText(p.value.node, false), KeyText(p.value.node, true), p.value.rest))
  }

  function ReadMember(braces: bool, s: Bytes, depth: nat): Option<Read>
    requires depth <= MAX_DEPTH
  {
    var p := ScanMember(braces, s, depth);
    if p.None? then None
    else Some(Read(MemberText(p.value.node, braces, false), MemberText(p.value.node, braces, true), p.value.rest))
  }

  function RestOf(r: Option<Read>): Bytes { if r.None? then [] else r.value.rest }

  // ----- steps made of steps

  lemma StringSteps(s: Bytes)
    ensures ReadString(s) == Bind(ReadExpected(s, QUOTE), ReadChars(RestOf(ReadExpected(s, QUOTE))))
  {
    hide ScanChars, CharsText;
    if Peek(s) == QUOTE && ScanChars(s[1..]).Some? {
      Append3([QUOTE], CharsText(ScanChars(s[1..]).value.node), [QUOTE]);
    }
  }

  lemma CharsEnd(s: Bytes)
    requires Peek(s) == QUOTE
    ensures ReadChars(s) == ReadByte(s)
  {
    NothingAdded([QUOTE]);
  }

  lemma CharsSteps(s: Bytes)
    requires s != [] && s[0] != QUOTE
    ensures ReadChars(s) == Bind(ReadChar(s), ReadChars(RestOf(ReadChar(s))))
  {
    hide ScanChar, CharText, CharOk;
    var c := ScanChar(s);
    if c.Some? && ScanChars(c.value.rest).Some? {
      var more := ScanChars(c.value.rest).value.node;
      assert ([c.value.node] + more)[1..] == more;
      Append3(CharText(c.value.node), CharsText(more), [QUOTE]);
    }
  }

  function ReadLow(s: Bytes): Option<Read> {
    var h := ScanHex(s);
    if h.None? || !IsLow(UnitValue(h.value.node)) then None else ReadHex(s)
  }

  /** The rest of an escaped character after "\u". */
  function ReadUnit(s: Bytes): Option<Read> {
    var h, a := ScanHex(s), ReadHex(s);
    if h.None? || IsLow(UnitValue(h.value.node)) then None
    else if !IsHigh(UnitValue(h.value.node)) then a
    else
      var b := ReadExpected(RestOf(a), BACKSLASH);
      var c := ReadExpected(RestOf(b), UNICODE);
      Bind(a, Bind(b, Bind(c, ReadLow(RestOf(c)))))
  }

  lemma UnitSteps(s: Bytes)
    ensures var p := ScanUnit(s);
      Bind(Kept([BACKSLASH, UNICODE], s), ReadUnit(s)) == if p.None? then None else Kept(CharText(p.value.node), p.value.rest)
  {
    var h := ScanHex(s);
    if h.Some? {
      var t := h.value.rest;
      if |t| >= 2 {
        assert t[1..][1..] == t[2..];
        var low := ScanHex(t[2..]);
        if low.Some? {
          Append3([BACKSLASH], [UNICODE], low.value.node);
          assert [BACKSLASH] + [UNICODE] == [BACKSLASH, UNICODE];
          Append3([BACKSLASH, UNICODE], h.value.node, [BACKSLASH, UNICODE] + low.value.node);
        }
      }
    }
    hide ScanHex, IsUnit, UnitValue;
  }

  /** The rest of an escaped character after the backslash. */
  function ReadEscape(s: Bytes): Option<Read> {
    Bind(ReadByte(s), EscapeMore(s))
  }

  function EscapeMore(s: Bytes): Option<Read> {
    if s == [] then None
    else if s[0] == UNICODE then ReadUnit(s[1..])
    else if IsEscape(s[0]) then Kept([], s[1..])
    else None
  }

  lemma EscapeSteps(s: Bytes)
    requires s != [] && s[0] == BACKSLASH
    ensures ReadChar(s) == Bind(ReadByte(s), ReadEscape(s[1..]))
  {
    if |s| >= 2 {
      assert s[1..][1..] == s[2..];
      assert [BACKSLASH] + [s[1]] == [BACKSLASH, s[1]];
      AppendNil([s[1]]);
      if s[1] == UNICODE {
        UnitSteps(s[2..]);
        BindAssociative(ReadByte(s), ReadByte(s[1..]), ReadUnit(s[2..]));
        hide ScanUnit, ReadUnit;
      }
    }
  }

  /** What follows the first byte of a character. */
  function CharMore(s: Bytes): Option<Read>
    requires s != [] && s[0] != QUOTE
  {
    var p := ScanChar(s);
    if p.None? then None else Kept(CharText(p.value.node)[1..], p.value.rest)
  }

  lemma CharStarts(s: Bytes)
    requires s != [] && s[0] != QUOTE
    ensures ReadChar(s) == Bind(ReadByte(s), CharMore(s))
  {
    var p := ScanChar(s);
    if p.Some? {
      var text := CharText(p.value.node);
      assert s[0] == (text + p.value.rest)[0] == text[0];
      Uncons(text);
    }
    hide ScanChar;
  }

  /** If not even the next byte can be taken, no string can be read. */
  lemma CharsUnread(s: State, out: Option<Bytes>, s': State, out': Option<Bytes>)
    requires Performs(s, out, ReadByte(s.rest), false, s', out')
    ensures Performs(s, out, ReadChars(s.rest), false, s', out')
  {
    hide Performs, ReadChar, ReadChars;
    if s.rest == [] {
      assert ReadChars(s.rest) == None by { NoChars(); }
    } else if s.rest[0] == QUOTE {
      CharsEnd(s.rest);
    } else {
      CharsSteps(s.rest);
      CharStarts(s.rest);
      var next := ReadChars(RestOf(ReadChar(s.rest)));
      BindAssociative(ReadByte(s.rest), CharMore(s.rest), next);
      ChainFails(s, out, ReadByte(s.rest), s', out', Bind(CharMore(s.rest), next));
    }
  }

  lemma NoChars()
    ensures ReadChars([]) == None
  {
  }

  lemma CharRefused(s: Bytes)
    requires s != [] && s[0] < 0x20
    ensures ReadChar(s) == None
  {
  }

  lemma CharPlain(s: Bytes)
    requires s != [] && 0x20 <= s[0] < 0x80 && s[0] != QUOTE && s[0] != BACKSLASH
    ensures ReadChar(s) == ReadByte(s)
  {
  }

  /** What is left to read of a multi-byte character of `n` bytes after `i` of them. */
  function ReadWide(s: Bytes, i: nat, n: nat): Option<Read>
    requires i <= n
  {
    if |s| < n || !Utf8.WellFormed(s[..n]) then None else Kept(s[i..n], s[n..])
  }

  lemma WideSteps(s: Bytes)
    requires s != [] && s[0] >= 0x80
    ensures Utf8.Width(s[0]) == 0 ==> ReadChar(s) == None
    ensures ReadChar(s) == ReadWide(s, 0, Utf8.Width(s[0]))
  {
    var n := Utf8.Width(s[0]);
    if n > 0 && |s| >= n && Utf8.WellFormed(s[..n]) {
      Utf8.EncodeDecode(s[..n]);
    }
  }

  lemma WideNext(s: Bytes, i: nat, n: nat)
    requires i < n && n <= 4
    ensures i < |s| ==> ReadWide(s, i, n) == Bind(ReadByte(s[i..]), ReadWide(s, i + 1, n))
    ensures i >= |s| ==> ReadWide(s, i, n) == None
  {
    if |s| >= n {
      assert s[i..n] == [s[i]] + s[i+1..n];
    }
  }

  lemma NumberSteps(s: Bytes)
    ensures var a := ReadMinus(s);
      var b := ReadWhole(RestOf(a));
      var c := ReadFraction(RestOf(b));
      ReadNumber(s) == Bind(a, Bind(b, Bind(c, ReadExponent(RestOf(c)))))
  {
    hide ScanWhole, ScanFraction, ScanExponent, FractionText, ExponentText, DigitsOk;
  }

  lemma FractionSteps(s: Bytes)
    ensures ReadFraction(s) == if Peek(s) != POINT then Kept([], s) else Bind(ReadByte(s), ReadDigits(s[1..]))
  {
    hide ScanDigits;
  }

  lemma ExponentSteps(s: Bytes)
    ensures ReadExponent(s) == if !IsMark(Peek(s)) then Kept([], s)
                               else Bind(ReadByte(s), Bind(ReadSign(s[1..]), ReadDigits(RestOf(ReadSign(s[1..])))))
  {
    hide ScanDigits;
    if IsMark(Peek(s)) && IsSign(Peek(s[1..])) {
      assert s[1..][1..] == s[2..];
    }
  }

  lemma MinusByte(s: Bytes)
    ensures ReadMinus(s) == if Peek(s) == MINUS then ReadByte(s) else Kept([], s)
  {
  }

  lemma SignByte(s: Bytes)
    ensures ReadSign(s) == if IsSign(Peek(s)) then ReadByte(s) else Kept([], s)
  {
  }

  lemma WholeSteps(s: Bytes)
    ensures ReadWhole(s) == if Peek(s) != ZERO then ReadDigits(s) else if IsDigit(Peek(s[1..])) then None else ReadByte(s)
  {
    hide ScanDigits;
  }

  lemma DigitsSteps(s: Bytes)
    ensures ReadDigits(s) == if IsDigit(Peek(s)) then ReadRun(Digit, s) else None
  {
  }

  /** What is left of a literal after its first `i` letters matched. */
  function WordRest(w: Literal, s: Bytes, i: nat): Option<Read>
    requires i <= |w.Text()|
  {
    if ScanWord(w, s).None? then None else Kept(w.Text()[i..], s[|w.Text()|..])
  }

  lemma WordStart(w: Literal, s: Bytes)
    ensures ReadWord(w, s) == WordRest(w, s, 0)
  {
    assert w.Text()[0..] == w.Text();
  }

  lemma WordNext(w: Literal, s: Bytes, i: nat)
    requires i < |w.Text()| && i <= |s| && s[..i] == w.Text()[..i]
    ensures WordRest(w, s, i) == Bind(ReadExpected(s[i..], w.Text()[i]), WordRest(w, s, i + 1))
    ensures i < |s| && s[i] == w.Text()[i] ==> s[..i+1] == w.Text()[..i+1]
  {
    hide Literal.Text;
    var text := w.Text();
    assert text[i..] == [text[i]] + text[i+1..];
    assert text[..i+1] == text[..i] + [text[i]];
    if ScanWord(w, s).Some? {
      assert s[i] == s[..|text|][i];
    }
    if i < |s| {
      assert s[..i+1] == s[..i] + [s[i]];
    }
  }

  lemma WordEnd(w: Literal, s: Bytes)
    requires |w.Text()| <= |s| && s[..|w.Text()|] == w.Text()
    ensures WordRest(w, s, |w.Text()|) == Kept([], s[|w.Text()|..])
  {
    assert w.Text()[|w.Text()|..] == [];
  }

  /** A value that is not a group. */
  lemma ValueSteps(s: Bytes, depth: nat)
    requires depth <= MAX_DEPTH && Peek(s) != Open(true) && Peek(s) != Open(false)
    ensures ReadValue(s, depth) ==
      if Peek(s) == QUOTE then ReadString(s)
      else if Peek(s) == 0x74 then ReadWord(True, s)
      else if Peek(s) == 0x66 then ReadWord(False, s)
      else if Peek(s) == 0x6e then ReadWord(Null, s)
      else ReadNumber(s)
  {
    hide ScanString, ScanNumber, NumberText, StringText, NumberOk, CharsOk, ScanGroup;
  }

  lemma SpacedSteps(s: Bytes, depth: nat)
    requires depth <= MAX_DEPTH
    ensures ReadSpaced(s, depth) == Bind(ReadSpace(s), ReadValue(RestOf(ReadSpace(s)), depth))
  {
    hide ScanValue, ValueText, JsonOk, Span;
    var v := ScanValue(s[|Span(Space, s)|..], depth);
    if v.Some? {
      NothingAdded(ValueText(v.value.node, true));
    }
  }

  lemma KeySteps(s: Bytes)
    ensures var a := ReadSpace(s);
      var b := ReadString(RestOf(a));
      var c := ReadSpace(RestOf(b));
      ReadKey(s) == Bind(a, Bind(b, Bind(c, ReadExpected(RestOf(c), COLON))))
  {
    hide ScanString, StringText, Span;
    var chars := ScanString(s[|Span(Space, s)|..]);
    if chars.Some? {
      NothingAdded([COLON]);
      NothingAdded(StringText(chars.value.node) + [COLON]);
    }
  }

  function ReadElement(s: Bytes, depth: nat): Option<Read>
    requires depth <= MAX_DEPTH
  {
    var a := ReadSpaced(s, depth + 1);
    Bind(a, ReadSpace(RestOf(a)))
  }

  /** What follows a member: the closing bracket, or a comma and more members. */
  function ItemsTail(braces: bool, t: Bytes, depth: nat, room: nat): Option<Read>
    requires depth <= MAX_DEPTH && room < MAX_FIELDS
  {
    if Peek(t) == Close(braces) then ReadExpected(t, Close(braces))
    else Bind(ReadExpected(t, COMMA), if room == 0 then None else ReadItems(braces, RestOf(ReadExpected(t, COMMA)), depth, room - 1))
  }

  lemma MemberSteps(braces: bool, s: Bytes, depth: nat)
    requires depth <= MAX_DEPTH
    ensures ReadMember(braces, s, depth)
         == if braces then Bind(ReadKey(s), ReadElement(RestOf(ReadKey(s)), depth)) else ReadElement(s, depth)
  {
    hide ScanKey, KeyText, KeyOk, ScanSpaced, SpacedText, SpacedOk, Span;
    if braces {
      var key := ScanKey(s);
      if key.Some? {
        ElementText(Some(key.value.node), key.value.rest, depth);
      }
    } else {
      ElementText(None, s, depth);
      var m := ScanElement(None, s, depth);
      if m.Some? {
        NothingAdded(SpacedText(m.value.node.value, false) + m.value.node.trail);
        NothingAdded(SpacedText(m.value.node.value, true) + []);
      }
    }
  }

  lemma ElementText(key: Option<Key>, s: Bytes, depth: nat)
    requires depth <= MAX_DEPTH && (key.Some? ==> KeyOk(key.value) && Paired(key.value.chars))
    ensures var m := ScanElement(key, s, depth);
      ReadElement(s, depth) == if m.None? then None
        else Some(Read(SpacedText(m.value.node.value, false) + m.value.node.trail,
                       SpacedText(m.value.node.value, true) + [], m.value.rest))
  {
    hide ScanSpaced, SpacedText, SpacedOk, Span;
  }

  lemma ItemsSteps(braces: bool, s: Bytes, depth: nat, room: nat)
    requires depth <= MAX_DEPTH && room < MAX_FIELDS
    ensures ReadItems(braces, s, depth, room)
         == Bind(ReadMember(braces, s, depth), ItemsTail(braces, RestOf(ReadMember(braces, s, depth)), depth, room))
  {
    hide ScanMember, MemberText, MemberOk;
    var items := ScanItems(braces, s, depth, room);
    if items.Some? {
      UnfoldAny(items.value.node, braces, false);
      UnfoldAny(items.value.node, braces, true);
    }
    hide ItemsText;
  }

  lemma UnfoldAny(items: Items, braces: bool, tight: bool)
    requires ItemsOk(items, braces)
    ensures ItemsText(items, braces, tight) == MemberText(items.member, braces, tight)
         + if items.Last? then [Close(braces)] else [COMMA] + ItemsText(items.rest, braces, tight)
  {
    hide MemberText;
  }

  lemma GroupSteps(braces: bool, s: Bytes, depth: nat)
    requires depth <= MAX_DEPTH && Peek(s) == Open(braces)
    ensures var a := ReadExpected(s, Open(braces));
      var b := ReadSpace(RestOf(a));
      var t := RestOf(b);
      ReadValue(s, depth) == Bind(a, Bind(b, if Peek(t) == Close(braces) then ReadExpected(t, Close(braces))
                                             else ReadItems(braces, t, depth, MAX_FIELDS - 1)))
  {
    hide ScanItems, ItemsText, ItemsOk, Span;
    var pad := Span(Space, s[1..]);
    var t := s[1..][|pad|..];
    assert ReadExpected(s, Open(braces)) == Some(Read([Open(braces)], [Open(braces)], s[1..]));
    assert ReadSpace(s[1..]) == Some(Read(pad, [], t));
    if Peek(t) == Close(braces) {
      assert ScanValue(s, depth) == Some(Parsed(Empty(braces, pad), t[1..]));
      assert ReadExpected(t, Close(braces)) == Some(Read([Close(braces)], [Close(braces)], t[1..]));
      GroupText(braces, pad, [Close(braces)]);
      GroupText(braces, [], [Close(braces)]);
      assert ReadValue(s, depth) == Some(Read([Open(braces)] + pad + [Close(braces)], [Open(braces)] + [] + [Close(braces)], t[1..]));
    } else if ScanItems(braces, t, depth, MAX_FIELDS - 1).Some? {
      var p := ScanItems(braces, t, depth, MAX_FIELDS - 1).value;
      var loose, tight := ItemsText(p.node, braces, false), ItemsText(p.node, braces, true);
      assert ScanValue(s, depth) == Some(Parsed(Group(braces, pad, p.node), p.rest));
      GroupText(braces, pad, loose);
      GroupText(braces, [], tight);
      assert ReadValue(s, depth) == Some(Read([Open(braces)] + pad + loose, [Open(braces)] + [] + tight, p.rest));
    } else {
      assert ScanValue(s, depth) == None;
    }
  }

  lemma GroupText(braces: bool, pad: Bytes, text: Bytes)
    ensures [Open(braces)] + pad + text == [Open(braces)] + (pad + text) && [] + text == text
  {
    Append3([Open(braces)], pad, text);
    NothingAdded(text);
  }
}
