/** The CSV reader: it scans every field, keeps only approved columns, and buffers no
    more of the level column than its longest known value. */
module CsvReader {
  import opened Common
  import opened JsonText
  import opened JsonScan
  import opened JsonLanguage
  import opened JsonReads
  import opened JsonLexer
  import opened CsvText
  import Utf8

  const LEVEL_BYTES: nat := 7

  /** How much of a column is kept: nothing, everything, or a short level. */
  datatype Keep = Skip | Whole | Level

  predicate Fits(keep: Keep, content: Bytes) {
    keep.Whole? ==> |content| <= MAX_FIELD_BYTES
  }

  function Retained(keep: Keep, content: Bytes): Bytes {
    if keep.Whole? || (keep.Level? && |content| <= LEVEL_BYTES) then content else []
  }

  /** The value buffer of one field; a level that grows too long is dropped for good. */
  class Buffer {
    var out: Bytes
    var keep: bool
    const level: bool

    constructor (keep: Keep)
      ensures Holds(keep, [])
    {
      out, this.keep, level := [], !keep.Skip?, keep.Level?;
    }

    ghost predicate Holds(k: Keep, content: Bytes)
      reads this
    {
      && out == Retained(k, content) && Fits(k, content) && level == k.Level?
      && (keep <==> k.Whole? || (k.Level? && |content| <= LEVEL_BYTES))
    }

    method Add(b: byte, ghost k: Keep, ghost content: Bytes) returns (ok: bool)
      requires Holds(k, content)
      modifies this
      ensures ok <==> Fits(k, content + [b])
      ensures ok ==> Holds(k, content + [b])
    {
      if keep {
        if level && |out| == LEVEL_BYTES {
          out, keep := [], false;
          return true;
        }
        if |out| >= MAX_FIELD_BYTES {
          return false;
        }
        out := out + [b];
      }
      return true;
    }

    method AddAll(bytes: Bytes, ghost k: Keep, ghost content: Bytes) returns (ok: bool)
      requires Holds(k, content)
      modifies this
      ensures ok <==> Fits(k, content + bytes)
      ensures ok ==> Holds(k, content + bytes)
    {
      AppendNil(content);
      for i := 0 to |bytes|
        invariant Holds(k, content + bytes[..i])
      {
        assert bytes[..i+1] == bytes[..i] + [bytes[i]];
        Append3(content, bytes[..i], [bytes[i]]);
        ok := Add(bytes[i], k, content + bytes[..i]);
        if !ok {
          return;
        }
      }
      assert bytes[..|bytes|] == bytes;
      ok := true;
    }
  }

  // ----- one field

  /** What is left of a field after `content` has been read. */
  function ReadRest(quoted: bool, keep: Keep, content: Bytes, s: Bytes): Option<Read> {
    var t := ScanText(quoted, s);
    if t.None? then None
    else
      var e := ScanEnd(t.value.rest);
      if e.None? || !Fits(keep, content + EncodeText(t.value.node)) then None
      else Kept(InnerText(quoted, t.value.node) + ((if quoted then [QUOTE] else []) + e.value.node.Text()), e.value.rest)
  }

  /** A field the limits allow to be kept, with its end. */
  function ReadField(keep: Keep, s: Bytes): Option<Read> {
    var p := ScanField(s);
    if p.None? || !Fits(keep, EncodeText(p.value.node.field.text)) then None
    else Kept(FieldText(p.value.node.field) + p.value.node.end.Text(), p.value.rest)
  }

  lemma FieldSteps(keep: Keep, s: Bytes)
    ensures ReadField(keep, s) == if Peek(s) == QUOTE then Bind(ReadExpected(s, QUOTE), ReadRest(true, keep, [], s[1..]))
                                  else ReadRest(false, keep, [], s)
  {
    var quoted := Peek(s) == QUOTE;
    var t := ScanText(quoted, if quoted then s[1..] else s);
    if t.Some? {
      var e := ScanEnd(t.value.rest);
      var inner := InnerText(quoted, t.value.node);
      NothingAdded(EncodeText(t.value.node));
      if e.Some? {
        var end := e.value.node.Text();
        if quoted {
          Append3([QUOTE], inner + [QUOTE], end);
          Append3(inner, [QUOTE], end);
        } else {
          NothingAdded(end);
        }
      }
    }
    hide ScanText, InnerText, EncodeText, ScanEnd, End.Text;
  }

  /** One more character of the text. */
  lemma RestNext(quoted: bool, keep: Keep, content: Bytes, s: Bytes, cp: int, next: Bytes)
    requires ScalarOk(cp) && ScanText(quoted, s) == Prepend(cp, ScanText(quoted, next))
    ensures ReadRest(quoted, keep, content, s)
         == Bind(Kept(QuotedScalar(quoted, cp), next), ReadRest(quoted, keep, content + EncodeScalar(cp), next))
  {
    var t := ScanText(quoted, next);
    if t.Some? {
      var more := t.value.node;
      assert ([cp] + more)[1..] == more;
      Append3(content, EncodeScalar(cp), EncodeText(more));
      var e := ScanEnd(t.value.rest);
      if e.Some? {
        var end := (if quoted then [QUOTE] else []) + e.value.node.Text();
        Append3(QuotedScalar(quoted, cp), InnerText(quoted, more), end);
      }
    }
    hide ScanText, ScanEnd, End.Text, EncodeScalar, QuotedScalar;
  }

  /** Once a field no longer fits, nothing that follows can make it fit. */
  lemma RestTooLong(quoted: bool, keep: Keep, content: Bytes, s: Bytes)
    requires !Fits(keep, content)
    ensures ReadRest(quoted, keep, content, s) == None
  {
  }

  lemma WideIsScalar(s: Bytes)
    requires s != [] && s[0] >= 0x80
    ensures var c := ScanScalar(s);
      ReadChar(s) == if c.None? then None else Kept(EncodeScalar(c.value.node), c.value.rest)
    ensures ScanScalar(s).Some? ==>
      (ScanScalar(s).value.node >= 0x80 && EncodeScalar(ScanScalar(s).value.node) == s[..Utf8.Width(s[0])])
  {
    var n := Utf8.Width(s[0]);
    if n != 0 && |s| >= n && Utf8.WellFormed(s[..n]) {
      Utf8.EncodeDecode(s[..n]);
    }
  }

  /** One scalar, not a quote inside quotes. */
  function ReadOne(s: Bytes): Option<Read>
    requires Peek(s) != 0
  {
    var c := ScanScalar(s);
    if c.None? then None else Kept(EncodeScalar(c.value.node), c.value.rest)
  }

  predicate Ordinary(quoted: bool, s: Bytes) {
    Peek(s) != 0 && if quoted then s[0] != QUOTE else !Special(s[0])
  }

  lemma OneNext(quoted: bool, keep: Keep, content: Bytes, s: Bytes)
    requires Ordinary(quoted, s)
    ensures var c := ScanScalar(s);
      ReadRest(quoted, keep, content, s)
      == if c.None? then None else Bind(ReadOne(s), ReadRest(quoted, keep, content + EncodeScalar(c.value.node), c.value.rest))
  {
    var c := ScanScalar(s);
    if c.Some? {
      ScalarUnquoted(quoted, s);
      assert QuotedScalar(quoted, c.value.node) == EncodeScalar(c.value.node) by {
        assert s[0] == (EncodeScalar(c.value.node) + c.value.rest)[0] == EncodeScalar(c.value.node)[0];
      }
      hide ScanScalar, QuotedScalar, EncodeScalar;
      RestNext(quoted, keep, content, s, c.value.node, c.value.rest);
    }
  }

  lemma OneBytes(s: Bytes)
    requires Peek(s) != 0
    ensures s[0] < 0x80 ==> ReadOne(s) == ReadByte(s) && EncodeScalar(ScanScalar(s).value.node) == [s[0]]
    ensures s[0] >= 0x80 ==> ReadOne(s) == ReadChar(s)
  {
    if s[0] >= 0x80 {
      WideIsScalar(s);
    }
  }

  lemma Discards(s: State, r: Option<Read>, ok: bool, s': State, out: Option<Bytes>)
    requires Performs(s, None, r, ok, s', out)
    ensures Performs(s, None, r, ok, s', None) && (ok ==> r.Some? && s'.rest == r.value.rest)
  {
  }

  /** One character whose first byte is taken: the rest of its bytes, then the buffer. */
  method ReadScalar(l: Lexer, buffer: Buffer, first: byte, ghost quoted: bool, ghost s: State, ghost keep: Keep,
      ghost content: Bytes)
    returns (ok: bool)
    requires Ordinary(quoted, s.rest) && s.rest[0] == first
    requires Performs(s, None, ReadByte(s.rest), true, l.View(), None) && buffer.Holds(keep, content)
    modifies l`rest, l`bytes, buffer
    ensures ok ==> && Performs(s, None, ReadOne(s.rest), true, l.View(), None) && ScanScalar(s.rest).Some?
                   && l.rest == ScanScalar(s.rest).value.rest && buffer.Holds(keep, content + EncodeScalar(ScanScalar(s.rest).value.node))
    ensures !ok ==> Performs(s, None, ReadRest(quoted, keep, content, s.rest), false, l.View(), None)
  {
    OneBytes(s.rest);
    OneNext(quoted, keep, content, s.rest);
    ghost var c := ScanScalar(s.rest);
    if first >= 0x80 {
      WideIsScalar(s.rest);
    }
    hide Performs, ReadRest, ScanScalar, ReadChar, ReadByte, EncodeScalar, Utf8.WellFormed, Utf8.Width;
    ok := true;
    var encoded := [first];
    if first >= 0x80 {
      var out;
      ok, out, encoded := l.WideRest(s, None, first, None);
      Discards(s, ReadOne(s.rest), ok, l.View(), out);
      if !ok {
        if c.Some? {
          ChainFails(s, None, ReadOne(s.rest), l.View(), None, ReadRest(quoted, keep, content + EncodeScalar(c.value.node), c.value.rest));
        } else {
          Refuses(s, None, l.View(), None);
        }
        return;
      }
    } else {
      Discards(s, ReadOne(s.rest), true, l.View(), None);
    }
    ok := buffer.AddAll(encoded, keep, content);
    if !ok {
      RestTooLong(quoted, keep, content + encoded, c.value.rest);
      Refuses(s, None, l.View(), None);
    }
  }

  // ----- what a field turns out to be

  datatype Outcome = Outcome(content: Bytes, end: End)

  /** The content and end of a field of which `content` has been read. */
  function OutcomeOf(quoted: bool, content: Bytes, s: Bytes): Option<Outcome> {
    var t := ScanText(quoted, s);
    if t.None? then None
    else
      var e := ScanEnd(t.value.rest);
      if e.None? then None else Some(Outcome(content + EncodeText(t.value.node), e.value.node))
  }

  lemma OutcomeNext(quoted: bool, content: Bytes, s: Bytes, cp: int, next: Bytes)
    requires ScalarOk(cp) && ScanText(quoted, s) == Prepend(cp, ScanText(quoted, next))
    ensures OutcomeOf(quoted, content, s) == OutcomeOf(quoted, content + EncodeScalar(cp), next)
  {
    var t := ScanText(quoted, next);
    if t.Some? {
      assert ([cp] + t.value.node)[1..] == t.value.node;
      Append3(content, EncodeScalar(cp), EncodeText(t.value.node));
    }
    hide ScanText, ScanEnd, EncodeScalar;
  }

  /** Text ends here: a quoted field with its closing quote. */
  lemma OutcomeEnds(quoted: bool, keep: Keep, content: Bytes, s: Bytes)
    requires Fits(keep, content)
    requires if quoted then Peek(s) == QUOTE && Peek(s[1..]) != QUOTE
             else Peek(s) == 0 || (Special(Peek(s)) && Peek(s) != QUOTE)
    ensures var close, e := (if quoted then [QUOTE] else []), ScanEnd(if quoted then s[1..] else s);
      && ReadRest(quoted, keep, content, s) == (if e.None? then None else Kept(close + e.value.node.Text(), e.value.rest))
      && OutcomeOf(quoted, content, s) == (if e.None? then None else Some(Outcome(content, e.value.node)))
  {
    AppendNil(content);
    var close: Bytes, t := (if quoted then [QUOTE] else []), if quoted then s[1..] else s;
    if ScanEnd(t).Some? {
      NothingAdded(close + ScanEnd(t).value.node.Text());
    }
    hide ScanEnd;
  }

  /** What follows the next byte. */
  lemma RestStarts(quoted: bool, keep: Keep, content: Bytes, s: Bytes)
    requires Peek(s) != 0
    ensures ReadRest(quoted, keep, content, s) == None
         || exists more {:trigger Bind(ReadByte(s), more)} :: ReadRest(quoted, keep, content, s) == Bind(ReadByte(s), more)
  {
    var r := ReadRest(quoted, keep, content, s);
    if r.Some? {
      var t := ScanText(quoted, s).value;
      var inner, close := InnerText(quoted, t.node), if quoted then [QUOTE] else [];
      var e := ScanEnd(t.rest).value;
      TextSound(quoted, s);
      EndSound(t.rest);
      Append3(inner, close, e.node.Text());
      Regroup(inner + close, e.node.Text(), e.rest);
      assert s == r.value.text + r.value.rest;
      assert r.value.text != [] by {
        if r.value.text == [] {
          NothingAdded(r.value.rest);
        }
      }
      assert s[0] == r.value.text[0];
      Uncons(r.value.text);
      hide ScanText, ScanEnd;
      assert r == Bind(ReadByte(s), Kept(r.value.text[1..], r.value.rest));
    }
  }

  /** If not even the next byte can be taken, the field cannot be read. */
  lemma RestUnread(quoted: bool, keep: Keep, content: Bytes, s: State, s': State)
    requires Peek(s.rest) != 0 && Performs(s, None, ReadByte(s.rest), false, s', None)
    ensures Performs(s, None, ReadRest(quoted, keep, content, s.rest), false, s', None)
  {
    RestStarts(quoted, keep, content, s.rest);
    var r := ReadRest(quoted, keep, content, s.rest);
    hide ReadRest, Performs;
    if r == None {
      Refuses(s, None, s', None);
    } else {
      var more :| r == Bind(ReadByte(s.rest), more);
      ChainFails(s, None, ReadByte(s.rest), s', None, more);
    }
  }

  function EndOf(b: byte): End {
    if b == COMMA then Comma else if b == RETURN then CarriageReturn else LineFeed
  }

  /** The closing quote is taken: the field must end here. */
  method CloseField(l: Lexer, ghost s: State, ghost keep: Keep, ghost content: Bytes) returns (ok: bool, end: End)
    requires Peek(s.rest) == QUOTE && Peek(s.rest[1..]) != QUOTE && Fits(keep, content)
    requires Performs(s, None, ReadByte(s.rest), true, l.View(), None)
    modifies l`rest, l`bytes
    ensures Performs(s, None, ReadRest(true, keep, content, s.rest), ok, l.View(), None)
    ensures ok ==> OutcomeOf(true, content, s.rest) == Some(Outcome(content, end))
  {
    OutcomeEnds(true, keep, content, s.rest);
    Reached(s, None, ReadByte(s.rest), l.View(), None);
    hide Performs, ReadRest;
    end := Input;
    ghost var s1 := l.View();
    var next := l.PeekByte();
    if next == 0 {
      AppendNil([QUOTE]);
      return true, Input;
    }
    if next != COMMA && next != RETURN && next != NEWLINE {
      Refuses(s, None, s1, None);
      return false, Input;
    }
    var b, out;
    ok, b, out := l.Take(None);
    Discards(s1, ReadByte(s1.rest), ok, l.View(), out);
    Chain(s, None, ReadByte(s.rest), s1, None, ReadByte(s1.rest), ok, l.View(), None);
    end := EndOf(b);
  }

  /** One field and what ends it. */
  method ReadCsvField(l: Lexer, keep: Keep) returns (ok: bool, value: Bytes, end: End)
    modifies l`rest, l`bytes
    ensures Performs(old(l.View()), None, ReadField(keep, old(l.rest)), ok, l.View(), None)
    ensures ok ==> var e := ScanField(old(l.rest)).value.node; value == Retained(keep, EncodeText(e.field.text)) && end == e.end
  {
    hide Performs, Under, ReadField, ReadRest, OutcomeOf, Ordinary;
    var buffer := new Buffer(keep);
    ghost var s0, whole := l.View(), ReadField(keep, l.rest);
    FieldSteps(keep, l.rest);
    var quoted := l.PeekByte() == QUOTE;
    ghost var done := Kept([], l.rest);
    Begin(s0, None, whole);
    value, end := [], Input;
    if quoted {
      var out;
      done := ReadExpected(l.rest, QUOTE);
      ok, out := l.Expect(QUOTE, None);
      Discards(s0, done, ok, l.View(), out);
      FirstStep(s0, None, whole, done, ok, l.View(), None, ReadRest(true, keep, [], s0.rest[1..]));
      if !ok {
        return;
      }
    }
    ghost var start, content := l.rest, [];
    while true
      invariant Under(s0, None, whole, done, l.View(), None, ReadRest(quoted, keep, content, l.rest))
      invariant buffer.Holds(keep, content) && fresh(buffer)
      invariant OutcomeOf(quoted, [], start) == OutcomeOf(quoted, content, l.rest)
      decreases |l.rest|
    {
      ghost var s, left := l.View(), ReadRest(quoted, keep, content, l.rest);
      if l.PeekByte() == 0 {
        if quoted {
          NothingQuoted(keep, content, l.rest);
          Refuses(s, None, s, None);
        } else {
          OutcomeEnds(false, keep, content, l.rest);
          NothingAdded(End.Input.Text());
          Idle(s, None);
        }
        Finish(s0, None, whole, done, s, None, left, !quoted, s, None);
        ok, value := !quoted, buffer.out;
        FieldOutcome(s0.rest, start);
        return;
      }
      var b, out;
      ok, b, out := l.Take(None);
      Discards(s, ReadByte(s.rest), ok, l.View(), out);
      if !ok {
        RestUnread(quoted, keep, content, s, l.View());
        Finish(s0, None, whole, done, s, None, left, false, l.View(), None);
        return;
      }
      if quoted && b == QUOTE && l.PeekByte() != QUOTE {
        ok, end := CloseField(l, s, keep, content);
        Finish(s0, None, whole, done, s, None, left, ok, l.View(), None);
        value := buffer.out;
        FieldOutcome(s0.rest, start);
        return;
      }
      if !quoted && (b == COMMA || b == RETURN || b == NEWLINE) {
        OutcomeEnds(false, keep, content, s.rest);
        NothingAdded(EndOf(b).Text());
        Finish(s0, None, whole, done, s, None, left, true, l.View(), None);
        value, end := buffer.out, EndOf(b);
        FieldOutcome(s0.rest, start);
        return;
      }
      if !quoted && b == QUOTE {
        BareQuote(keep, content, s.rest);
        Refuses(s, None, l.View(), None);
        Finish(s0, None, whole, done, s, None, left, false, l.View(), None);
        return false, [], Input;
      }
      if quoted && b == QUOTE {
        ok := DoubledQuote(l, buffer, s, keep, content);
        if !ok {
          Finish(s0, None, whole, done, s, None, left, false, l.View(), None);
          return;
        }
        DoubledNext(keep, content, s.rest);
        Step(s0, None, whole, done, s, None, Kept([QUOTE, QUOTE], s.rest[2..]), true, l.View(), None,
             ReadRest(true, keep, content + [QUOTE], l.rest));
        done := Bind(done, Kept([QUOTE, QUOTE], s.rest[2..]));
        content := content + [QUOTE];
      } else {
        OrdinaryNow(quoted, s.rest);
        ok := ReadScalar(l, buffer, b, quoted, s, keep, content);
        if !ok {
          Finish(s0, None, whole, done, s, None, left, false, l.View(), None);
          return;
        }
        OneNext(quoted, keep, content, s.rest);
        ghost var c := ScanScalar(s.rest).value;
        OutcomeNext(quoted, content, s.rest, c.node, c.rest);
        Step(s0, None, whole, done, s, None, ReadOne(s.rest), true, l.View(), None,
             ReadRest(quoted, keep, content + EncodeScalar(c.node), l.rest));
        done := Bind(done, ReadOne(s.rest));
        content := content + EncodeScalar(c.node);
      }
    }
  }

  lemma NothingQuoted(keep: Keep, content: Bytes, s: Bytes)
    requires Peek(s) == 0
    ensures ReadRest(true, keep, content, s) == None
  {
  }

  lemma BareQuote(keep: Keep, content: Bytes, s: Bytes)
    requires Peek(s) == QUOTE
    ensures ReadRest(false, keep, content, s) == None
  {
  }

  lemma OrdinaryNow(quoted: bool, s: Bytes)
    requires Peek(s) != 0 && if quoted then s[0] != QUOTE else s[0] != QUOTE && s[0] != COMMA && s[0] != RETURN && s[0] != NEWLINE
    ensures Ordinary(quoted, s)
    ensures ScanText(quoted, s) ==
      if ScanScalar(s).None? then None else Prepend(ScanScalar(s).value.node, ScanText(quoted, ScanScalar(s).value.rest))
  {
    hide ScanScalar;
  }

  lemma DoubledNext(keep: Keep, content: Bytes, s: Bytes)
    requires Peek(s) == QUOTE && Peek(s[1..]) == QUOTE
    ensures ReadRest(true, keep, content, s) == Bind(Kept([QUOTE, QUOTE], s[2..]), ReadRest(true, keep, content + [QUOTE], s[2..]))
    ensures OutcomeOf(true, content, s) == OutcomeOf(true, content + [QUOTE], s[2..])
  {
    assert ScanText(true, s) == Prepend(0x22, ScanText(true, s[2..]));
    RestNext(true, keep, content, s, 0x22, s[2..]);
    OutcomeNext(true, content, s, 0x22, s[2..]);
    hide ScanText, ReadRest, OutcomeOf;
  }

  /** The second of two quotes, which stand for one. */
  method DoubledQuote(l: Lexer, buffer: Buffer, ghost s: State, ghost keep: Keep, ghost content: Bytes)
    returns (ok: bool)
    requires Peek(s.rest) == QUOTE && Peek(s.rest[1..]) == QUOTE && buffer.Holds(keep, content)
    requires Performs(s, None, ReadByte(s.rest), true, l.View(), None)
    modifies l`rest, l`bytes, buffer
    ensures ok ==> Performs(s, None, Kept([QUOTE, QUOTE], s.rest[2..]), true, l.View(), None) && l.rest == s.rest[2..]
    ensures ok ==> buffer.Holds(keep, content + [QUOTE])
    ensures !ok ==> Performs(s, None, ReadRest(true, keep, content, s.rest), false, l.View(), None)
  {
    Reached(s, None, ReadByte(s.rest), l.View(), None);
    hide Performs, ReadRest;
    ghost var s1 := l.View();
    ghost var two := Kept([QUOTE, QUOTE], s.rest[2..]);
    ghost var next := ReadRest(true, keep, content + [QUOTE], s.rest[2..]);
    DoubledNext(keep, content, s.rest);
    assert Bind(ReadByte(s.rest), ReadExpected(s1.rest, QUOTE)) == two by {
      assert s.rest[1..][1..] == s.rest[2..];
      assert [QUOTE] + [QUOTE] == [QUOTE, QUOTE];
    }
    var out;
    ok, out := l.Expect(QUOTE, None);
    Discards(s1, ReadExpected(s1.rest, QUOTE), ok, l.View(), out);
    Chain(s, None, ReadByte(s.rest), s1, None, ReadExpected(s1.rest, QUOTE), ok, l.View(), None);
    if !ok {
      ChainFails(s, None, two, l.View(), None, next);
      return;
    }
    Reached(s, None, two, l.View(), None);
    ok := buffer.Add(QUOTE, keep, content);
    if !ok {
      RestTooLong(true, keep, content + [QUOTE], s.rest[2..]);
      Refuses(s, None, l.View(), None);
    }
  }

  /** The outcome is the field's. */
  lemma FieldOutcome(s: Bytes, start: Bytes)
    requires start == if Peek(s) == QUOTE then s[1..] else s
    ensures var o, p := OutcomeOf(Peek(s) == QUOTE, [], start), ScanField(s);
      && (o.Some? <==> p.Some?)
      && (o.Some? ==> o.value.content == EncodeText(p.value.node.field.text) && o.value.end == p.value.node.end)
  {
    var t := ScanText(Peek(s) == QUOTE, start);
    if t.Some? {
      NothingAdded(EncodeText(t.value.node));
    }
    hide ScanText, ScanEnd;
  }
}
