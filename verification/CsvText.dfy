/** CSV text as section 2 of RFC 4180 defines it, over fields of UTF-8 text, and the
    recognizer for it. */
module CsvText {
  import opened Common
  import opened JsonText
  import opened JsonScan
  import opened JsonLanguage
  import Utf8

  const RETURN: byte := 0x0d
  const NEWLINE: byte := 0x0a

  /** A field's text: scalar values. */
  type Text = seq<int>

  predicate ScalarOk(cp: int) {
    0 <= cp < 0x80 || Utf8.WideScalar(cp)
  }

  predicate TextOk(t: Text) {
    forall i :: 0 <= i < |t| ==> ScalarOk(t[i])
  }

  /** The recognizer takes a NUL for the end of the input, so it never reads one. */
  predicate NulFree(t: Text) {
    forall i :: 0 <= i < |t| ==> t[i] != 0
  }

  function EncodeScalar(cp: int): (b: Bytes)
    requires ScalarOk(cp)
    ensures b != []
  {
    if cp < 0x80 then [cp as byte] else Utf8.Encode(cp)
  }

  function EncodeText(t: Text): Bytes
    requires TextOk(t)
  {
    if t == [] then [] else EncodeScalar(t[0]) + EncodeText(t[1..])
  }

  /** A field is quoted or bare; a bare one has no character that would need quotes. */
  datatype Field = Field(quoted: bool, text: Text)

  predicate Special(b: byte) {
    b == QUOTE || b == COMMA || b == RETURN || b == NEWLINE
  }

  predicate BareScalar(cp: int) {
    cp != 0x22 && cp != 0x2c && cp != 0x0d && cp != 0x0a
  }

  predicate FieldOk(f: Field) {
    TextOk(f.text) && (!f.quoted ==> forall i :: 0 <= i < |f.text| ==> BareScalar(f.text[i]))
  }

  /** Inside quotes a quote is doubled. */
  function QuotedScalar(quoted: bool, cp: int): (b: Bytes)
    requires ScalarOk(cp)
    ensures b != []
  {
    if quoted && cp == 0x22 then [QUOTE, QUOTE] else EncodeScalar(cp)
  }

  function InnerText(quoted: bool, t: Text): Bytes
    requires TextOk(t)
  {
    if t == [] then [] else QuotedScalar(quoted, t[0]) + InnerText(quoted, t[1..])
  }

  function FieldText(f: Field): Bytes
    requires FieldOk(f)
  {
    if f.quoted then [QUOTE] + (InnerText(true, f.text) + [QUOTE]) else InnerText(false, f.text)
  }

  /** What ends a field; at the end of the input nothing does. */
  datatype End = Comma | CarriageReturn | LineFeed | Input {
    function Text(): Bytes {
      match this case Comma => [COMMA] case CarriageReturn => [RETURN] case LineFeed => [NEWLINE] case Input => []
    }
  }

  // ----- the recognizer

  function ScanScalar(s: Bytes): (r: Option<Parsed<int>>)
    requires Peek(s) != 0
    ensures r.Some? ==> r.value.node != 0 && ScalarOk(r.value.node) && |r.value.rest| < |s| && s == EncodeScalar(r.value.node) + r.value.rest
  {
    if s[0] < 0x80 then Some(Parsed(s[0] as int, s[1..]))
    else
      var n := Utf8.Width(s[0]);
      if n == 0 || |s| < n || !Utf8.WellFormed(s[..n]) then None
      else
        Utf8.EncodeDecode(s[..n]);
        Some(Parsed(Utf8.Decode(s[..n]), s[n..]))
  }

  /** Text up to the closing quote, which is consumed, or up to what ends a bare field. */
  function ScanText(quoted: bool, s: Bytes): (r: Option<Parsed<Text>>)
    ensures r.Some? ==> TextOk(r.value.node) && NulFree(r.value.node)
    decreases |s|
  {
    if Peek(s) == 0 then if quoted then None else Some(Parsed([], s))
    else if quoted && s[0] == QUOTE then
      if Peek(s[1..]) == QUOTE then Prepend(0x22, ScanText(quoted, s[2..])) else Some(Parsed([], s[1..]))
    else if !quoted && Special(s[0]) then if s[0] == QUOTE then None else Some(Parsed([], s))
    else
      var c := ScanScalar(s);
      if c.None? then None else Prepend(c.value.node, ScanText(quoted, c.value.rest))
  }

  function Prepend(cp: int, r: Option<Parsed<Text>>): Option<Parsed<Text>> {
    if r.None? then None else Some(Parsed([cp] + r.value.node, r.value.rest))
  }

  function ScanEnd(s: Bytes): Option<Parsed<End>> {
    if Peek(s) == 0 then Some(Parsed(Input, s))
    else if s[0] == COMMA then Some(Parsed(Comma, s[1..]))
    else if s[0] == RETURN then Some(Parsed(CarriageReturn, s[1..]))
    else if s[0] == NEWLINE then Some(Parsed(LineFeed, s[1..]))
    else None
  }

  datatype Ended = Ended(field: Field, end: End)

  /** A field and what ends it. */
  function ScanField(s: Bytes): (r: Option<Parsed<Ended>>)
    ensures r.Some? ==> FieldOk(r.value.node.field) && NulFree(r.value.node.field.text)
  {
    var quoted := Peek(s) == QUOTE;
    var t := ScanText(quoted, if quoted then s[1..] else s);
    if t.None? then None
    else
      var e := ScanEnd(t.value.rest);
      if e.None? then None
      else
        if !quoted then BareText(s); Some(Parsed(Ended(Field(quoted, t.value.node), e.value.node), e.value.rest))
        else Some(Parsed(Ended(Field(quoted, t.value.node), e.value.node), e.value.rest))
  }

  lemma {:induction false} BareText(s: Bytes)
    requires ScanText(false, s).Some?
    ensures var t := ScanText(false, s).value.node; forall i :: 0 <= i < |t| ==> BareScalar(t[i])
    decreases |s|
  {
    if Peek(s) != 0 && !Special(s[0]) {
      var c := ScanScalar(s).value;
      assert s[0] < 0x80 ==> c.node == s[0] as int;
      assert s[0] >= 0x80 ==> c.node >= 0x80 by { if s[0] >= 0x80 { Utf8.EncodeDecode(s[..Utf8.Width(s[0])]); } }
      BareText(c.rest);
      hide ScanScalar;
    }
  }

  // ----- the recognizer accepts exactly the text of well-formed fields

  lemma {:induction false} TextSound(quoted: bool, s: Bytes)
    requires ScanText(quoted, s).Some?
    ensures var p := ScanText(quoted, s).value; s == InnerText(quoted, p.node) + (if quoted then [QUOTE] else []) + p.rest
    ensures !quoted ==> var b := Peek(ScanText(quoted, s).value.rest); b == 0 || (Special(b) && b != QUOTE)
    decreases |s|
  {
    var p := ScanText(quoted, s).value;
    var close: Bytes := if quoted then [QUOTE] else [];
    if Peek(s) == 0 || (!quoted && Special(s[0])) {
      NothingAdded(s);
      AppendNil(close);
    } else if quoted && s[0] == QUOTE && Peek(s[1..]) != QUOTE {
      Uncons(s);
      NothingAdded(close);
    } else {
      var doubled := quoted && s[0] == QUOTE;
      var cp := if doubled then 0x22 else ScanScalar(s).value.node;
      var rest := if doubled then s[2..] else ScanScalar(s).value.rest;
      assert s == QuotedScalar(quoted, cp) + rest by {
        if doubled { assert s == [QUOTE, QUOTE] + s[2..]; } else { ScalarUnquoted(quoted, s); }
      }
      TextSound(quoted, rest);
      var more := ScanText(quoted, rest).value;
      hide ScanScalar, QuotedScalar;
      assert p.node[1..] == more.node;
      Regroup(InnerText(quoted, more.node), close, more.rest);
      Splice(s, QuotedScalar(quoted, cp), rest, InnerText(quoted, more.node), close + more.rest);
      Append3(InnerText(quoted, p.node), close, more.rest);
    }
  }

  lemma ScalarUnquoted(quoted: bool, s: Bytes)
    requires Peek(s) != 0 && ScanScalar(s).Some? && (quoted ==> s[0] != QUOTE)
    ensures var c := ScanScalar(s).value; s == QuotedScalar(quoted, c.node) + c.rest
  {
    var c := ScanScalar(s).value;
    assert s[0] == (EncodeScalar(c.node) + c.rest)[0] == EncodeScalar(c.node)[0];
  }

  lemma ScalarComplete(cp: int, rest: Bytes)
    requires ScalarOk(cp) && cp != 0
    ensures var s := EncodeScalar(cp) + rest;
      && Peek(s) != 0 && ScanScalar(s) == Some(Parsed(cp, rest))
      && (cp < 0x80 ==> s[0] == cp as byte) && (cp >= 0x80 ==> s[0] >= 0x80)
  {
    var b := EncodeScalar(cp);
    Behind(b, rest);
    if cp >= 0x80 {
      Utf8.DecodeEncode(cp);
    }
  }

  lemma {:induction false} TextComplete(quoted: bool, t: Text, rest: Bytes)
    requires FieldOk(Field(quoted, t)) && NulFree(t)
    requires if quoted then Peek(rest) != QUOTE else Peek(rest) == 0 || (Special(Peek(rest)) && Peek(rest) != QUOTE)
    ensures ScanText(quoted, InnerText(quoted, t) + (if quoted then [QUOTE] else []) + rest) == Some(Parsed(t, rest))
  {
    var close: Bytes := if quoted then [QUOTE] else [];
    if t == [] {
      NothingAdded(close);
      NothingAdded(rest);
      Head(QUOTE, rest);
    } else {
      TextComplete(quoted, t[1..], rest);
      var more := InnerText(quoted, t[1..]) + close + rest;
      Append3(QuotedScalar(quoted, t[0]), InnerText(quoted, t[1..]), close);
      Regroup(QuotedScalar(quoted, t[0]), InnerText(quoted, t[1..]) + close, rest);
      assert ScanText(quoted, QuotedScalar(quoted, t[0]) + more) == Prepend(t[0], ScanText(quoted, more)) by {
        if quoted && t[0] == 0x22 {
          var s := [QUOTE, QUOTE] + more;
          assert s[0] == QUOTE && s[1..][0] == QUOTE && s[2..] == more;
        } else {
          ScalarComplete(t[0], more);
          hide ScanScalar, EncodeScalar;
        }
      }
      Uncons(t);
      hide ScanText, InnerText, QuotedScalar;
    }
  }

  /** What is read off the front of the input is a well-formed field without NUL and its
      end, exactly when the input is their text followed by the rest. */
  lemma FieldsExactly(input: Bytes, e: Ended, rest: Bytes)
    ensures ScanField(input) == Some(Parsed(e, rest))
       <==> (&& FieldOk(e.field) && NulFree(e.field.text) && input == FieldText(e.field) + (e.end.Text() + rest)
             && (e.end.Input? ==> Peek(rest) == 0))
  {
    if ScanField(input) == Some(Parsed(e, rest)) {
      FieldSound(input);
    }
    if && FieldOk(e.field) && NulFree(e.field.text) && input == FieldText(e.field) + (e.end.Text() + rest)
       && (e.end.Input? ==> Peek(rest) == 0) {
      FieldComplete(e, rest);
    }
  }

  lemma EndSound(s: Bytes)
    requires ScanEnd(s).Some?
    ensures var p := ScanEnd(s).value; s == p.node.Text() + p.rest && (p.node.Input? ==> Peek(p.rest) == 0)
  {
    NothingAdded(s);
    if s != [] {
      Uncons(s);
    }
  }

  lemma EndComplete(e: End, rest: Bytes)
    requires e.Input? ==> Peek(rest) == 0
    ensures ScanEnd(e.Text() + rest) == Some(Parsed(e, rest))
    ensures var b := Peek(e.Text() + rest); b == 0 || (Special(b) && b != QUOTE)
  {
    NothingAdded(rest);
    if !e.Input? {
      Head(e.Text()[0], rest);
    }
  }

  lemma FieldSound(s: Bytes)
    requires ScanField(s).Some?
    ensures var p := ScanField(s).value;
      s == FieldText(p.node.field) + (p.node.end.Text() + p.rest) && (p.node.end.Input? ==> Peek(p.rest) == 0)
  {
    var quoted := Peek(s) == QUOTE;
    var inner := if quoted then s[1..] else s;
    TextSound(quoted, inner);
    var t := ScanText(quoted, inner).value;
    EndSound(t.rest);
    hide ScanText, InnerText, ScanEnd;
    if quoted {
      Uncons(s);
      Splice(s, [QUOTE], inner, InnerText(true, t.node) + [QUOTE], t.rest);
    } else {
      AppendNil(InnerText(false, t.node));
    }
  }

  lemma FieldComplete(e: Ended, rest: Bytes)
    requires FieldOk(e.field) && NulFree(e.field.text) && (e.end.Input? ==> Peek(rest) == 0)
    ensures ScanField(FieldText(e.field) + (e.end.Text() + rest)) == Some(Parsed(e, rest))
  {
    var f, tail := e.field, e.end.Text() + rest;
    EndComplete(e.end, rest);
    TextComplete(f.quoted, f.text, tail);
    var inner := InnerText(f.quoted, f.text);
    if f.quoted {
      Regroup([QUOTE], inner + [QUOTE], tail);
      Head(QUOTE, inner + [QUOTE] + tail);
    } else {
      AppendNil(inner);
      BareStart(f.text, tail);
    }
    hide ScanText, InnerText, ScanEnd;
  }

  /** A bare field does not look quoted. */
  lemma BareStart(t: Text, tail: Bytes)
    requires FieldOk(Field(false, t)) && Peek(tail) != QUOTE
    ensures Peek(InnerText(false, t) + tail) != QUOTE
  {
    if t == [] {
      NothingAdded(tail);
    } else {
      if t[0] != 0 {
        ScalarComplete(t[0], InnerText(false, t[1..]) + tail);
      }
      Regroup(EncodeScalar(t[0]), InnerText(false, t[1..]), tail);
      hide ScanScalar;
    }
  }

  // ----- records

  /** How a record ends. */
  datatype LineEnd = Crlf | Lf | AtEnd {
    function Text(): Bytes {
      match this case Crlf => [RETURN, NEWLINE] case Lf => [NEWLINE] case AtEnd => []
    }
  }

  datatype Line = Line(fields: seq<Field>, end: LineEnd)

  predicate FieldsOk(fields: seq<Field>) {
    fields != [] && forall i :: 0 <= i < |fields| ==> FieldOk(fields[i])
  }

  predicate Clean(fields: seq<Field>) {
    forall i :: 0 <= i < |fields| ==> NulFree(fields[i].text)
  }

  function FieldsText(fields: seq<Field>): Bytes
    requires FieldsOk(fields)
  {
    if |fields| == 1 then FieldText(fields[0]) else FieldText(fields[0]) + ([COMMA] + FieldsText(fields[1..]))
  }

  function LineText(line: Line): Bytes
    requires FieldsOk(line.fields)
  {
    FieldsText(line.fields) + line.end.Text()
  }

  /** One field and `room` more; a carriage return must be followed by a line feed. */
  function ScanLine(s: Bytes, room: nat): (r: Option<Parsed<Line>>)
    ensures r.Some? ==> FieldsOk(r.value.node.fields) && |r.value.node.fields| <= room + 1
    decreases room
  {
    var f := ScanField(s);
    if f.None? then None
    else
      var field, rest := f.value.node.field, f.value.rest;
      match f.value.node.end
      case Input => Some(Parsed(Line([field], AtEnd), rest))
      case LineFeed => Some(Parsed(Line([field], Lf), rest))
      case CarriageReturn => if Peek(rest) == NEWLINE then Some(Parsed(Line([field], Crlf), rest[1..])) else None
      case Comma =>
        if room == 0 then None
        else
          var more := ScanLine(rest, room - 1);
          if more.None? then None else Some(Parsed(Line([field] + more.value.node.fields, more.value.node.end), more.value.rest))
  }

  lemma {:induction false} LineSound(s: Bytes, room: nat)
    requires ScanLine(s, room).Some?
    ensures var p := ScanLine(s, room).value;
      s == LineText(p.node) + p.rest && (p.node.end.AtEnd? ==> Peek(p.rest) == 0)
    decreases room
  {
    var f, p := ScanField(s).value, ScanLine(s, room).value;
    FieldSound(s);
    var text := FieldText(f.node.field);
    if f.node.end.Comma? {
      LineSound(f.rest, room - 1);
      var more := ScanLine(f.rest, room - 1).value;
      hide ScanField, FieldText, FieldOk, ScanLine;
      assert p.node.fields[1..] == more.node.fields;
      var fields, end := FieldsText(more.node.fields), more.node.end.Text();
      hide FieldsText;
      Regroup([COMMA], fields + end, more.rest);
      Splice(s, text, [COMMA] + f.rest, [COMMA] + (fields + end), more.rest);
      Append3([COMMA], fields, end);
      Append3(text, [COMMA] + fields, end);
    } else {
      hide ScanField, FieldText, FieldOk;
      LastSound(f.node.end, f.rest, p.node.end, p.rest);
      Splice(s, text, f.node.end.Text() + f.rest, p.node.end.Text(), p.rest);
    }
  }

  lemma LastSound(e: End, t: Bytes, end: LineEnd, rest: Bytes)
    requires match e
      case Input => end == AtEnd && rest == t
      case LineFeed => end == Lf && rest == t
      case CarriageReturn => end == Crlf && t != [] && t[0] == NEWLINE && rest == t[1..]
      case Comma => false
    ensures e.Text() + t == end.Text() + rest
  {
    if e.CarriageReturn? {
      Uncons(t);
      assert [RETURN] + t == [RETURN, NEWLINE] + t[1..];
    }
  }

  /** Reading a rendered record gives back its fields, whatever was quoted. */
  lemma {:induction false} LineComplete(line: Line, rest: Bytes, room: nat)
    requires FieldsOk(line.fields) && Clean(line.fields) && |line.fields| <= room + 1 && (line.end.AtEnd? ==> Peek(rest) == 0)
    ensures ScanLine(LineText(line) + rest, room) == Some(Parsed(line, rest))
    decreases |line.fields|
  {
    hide NulFree, FieldOk, FieldText, ScanField;
    var field := line.fields[0];
    if |line.fields| == 1 {
      OneComplete(line, rest, room);
    } else {
      var more := Line(line.fields[1..], line.end);
      LineComplete(more, rest, room - 1);
      var tail := LineText(more) + rest;
      FieldComplete(Ended(field, Comma), tail);
      NextField(field, tail, room);
      LineUnfold(line, rest);
      Uncons(line.fields);
      hide LineText, ScanLine;
    }
  }

  lemma OneComplete(line: Line, rest: Bytes, room: nat)
    requires FieldsOk(line.fields) && Clean(line.fields) && |line.fields| == 1 && (line.end.AtEnd? ==> Peek(rest) == 0)
    ensures ScanLine(LineText(line) + rest, room) == Some(Parsed(line, rest))
  {
    var field := line.fields[0];
    assert line.fields == [field];
    Append3(FieldText(field), line.end.Text(), rest);
    LastComplete(field, line.end, rest);
    hide ScanField, FieldText, FieldOk, LineEnd.Text;
  }

  lemma LineUnfold(line: Line, rest: Bytes)
    requires FieldsOk(line.fields) && |line.fields| > 1
    ensures LineText(line) + rest == FieldText(line.fields[0]) + ([COMMA] + (LineText(Line(line.fields[1..], line.end)) + rest))
  {
    var text, fields, end := FieldText(line.fields[0]), FieldsText(line.fields[1..]), line.end.Text();
    hide FieldText, FieldOk, LineEnd.Text;
    Append3([COMMA], fields, end);
    Append3(text, [COMMA] + fields, end);
    Append3([COMMA], fields + end, rest);
    Append3(text, [COMMA] + (fields + end), rest);
  }

  lemma NextField(field: Field, rest: Bytes, room: nat)
    requires room > 0 && FieldOk(field)
    requires ScanField(FieldText(field) + ([COMMA] + rest)) == Some(Parsed(Ended(field, Comma), rest))
    ensures var more := ScanLine(rest, room - 1);
      ScanLine(FieldText(field) + ([COMMA] + rest), room)
      == if more.None? then None else Some(Parsed(Line([field] + more.value.node.fields, more.value.node.end), more.value.rest))
  {
    hide ScanField, FieldText, FieldOk;
  }

  lemma LastComplete(field: Field, end: LineEnd, rest: Bytes)
    requires FieldOk(field) && NulFree(field.text) && (end.AtEnd? ==> Peek(rest) == 0)
    ensures ScanField(FieldText(field) + (end.Text() + rest)) ==
      Some(match end
           case Crlf => Parsed(Ended(field, CarriageReturn), [NEWLINE] + rest)
           case Lf => Parsed(Ended(field, LineFeed), rest)
           case AtEnd => Parsed(Ended(field, Input), rest))
    ensures Peek([NEWLINE] + rest) == NEWLINE && ([NEWLINE] + rest)[1..] == rest
  {
    hide ScanField, FieldText, FieldOk;
    Head(NEWLINE, rest);
    match end
    case Crlf =>
      FieldComplete(Ended(field, CarriageReturn), [NEWLINE] + rest);
      assert end.Text() + rest == [RETURN] + ([NEWLINE] + rest);
    case Lf =>
      FieldComplete(Ended(field, LineFeed), rest);
    case AtEnd =>
      FieldComplete(Ended(field, Input), rest);
  }
}
