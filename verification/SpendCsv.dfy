/** Framing of CSV exports: records are split at newlines outside quotes, and a record's
    field sizes are known before it is decoded. */
module SpendCsv {
  import opened Common
  import opened JsonText
  import opened JsonScan
  import opened JsonLanguage
  import opened CsvText

  const MAX_ROW_BYTES: nat := 0x10000
  const MAX_FIELD_BYTES: nat := 0x2000

  // ----- splitting outside quotes

  function Flip(quoted: bool, b: byte): bool { if b == QUOTE then !quoted else quoted }

  /** The quote state after some text. */
  function Parity(t: Bytes, quoted: bool): bool {
    if t == [] then quoted else Parity(t[1..], Flip(quoted, t[0]))
  }

  /** The bytes before the first `stop` outside quotes. */
  function Until(stop: byte, s: Bytes, quoted: bool): (t: Bytes)
    ensures |t| <= |s| && t == s[..|t|] && (|t| < |s| ==> s[|t|] == stop)
    decreases |s|
  {
    if s == [] || (s[0] == stop && !quoted) then []
    else
      var t := [s[0]] + Until(stop, s[1..], Flip(quoted, s[0]));
      assert s[..|t|] == [s[0]] + s[1..][..|t| - 1];
      t
  }

  /** No `stop` outside quotes. */
  predicate Within(stop: byte, t: Bytes, quoted: bool)
    decreases |t|
  {
    t == [] || (!(t[0] == stop && !quoted) && Within(stop, t[1..], Flip(quoted, t[0])))
  }

  lemma {:induction false} WithinAppend(stop: byte, a: Bytes, b: Bytes, quoted: bool)
    ensures Within(stop, a + b, quoted) <==> Within(stop, a, quoted) && Within(stop, b, Parity(a, quoted))
    ensures Parity(a + b, quoted) == Parity(b, Parity(a, quoted))
    decreases |a|
  {
    if a == [] {
      NothingAdded(b);
    } else {
      assert (a + b)[1..] == a[1..] + b;
      WithinAppend(stop, a[1..], b, Flip(quoted, a[0]));
    }
  }

  lemma {:induction false} UntilAppend(stop: byte, t: Bytes, rest: Bytes, quoted: bool)
    requires Within(stop, t, quoted)
    ensures Until(stop, t + rest, quoted) == t + Until(stop, rest, Parity(t, quoted))
    decreases |t|
  {
    if t == [] {
      NothingAdded(rest);
      NothingAdded(Until(stop, rest, quoted));
    } else {
      assert (t + rest)[1..] == t[1..] + rest;
      UntilAppend(stop, t[1..], rest, Flip(quoted, t[0]));
      Uncons(t);
      Regroup([t[0]], t[1..], Until(stop, rest, Parity(t, quoted)));
    }
  }

  /** Text that ends outside quotes is cut off exactly where it ends. */
  lemma UntilStop(stop: byte, t: Bytes, more: Bytes)
    requires stop != QUOTE && Within(stop, t, false) && !Parity(t, false)
    ensures Until(stop, t + ([stop] + more), false) == t && Until(stop, t, false) == t
  {
    UntilAppend(stop, t, [stop] + more, false);
    UntilAppend(stop, t, [], false);
    Head(stop, more);
    AppendNil(t);
  }

  // ----- rendered fields have their separators inside quotes

  predicate Separator(b: byte) { b == NEWLINE || b == COMMA }

  lemma QuoteFlips(stop: byte)
    requires Separator(stop)
    ensures Within(stop, [QUOTE], false) && Within(stop, [QUOTE], true)
    ensures Parity([QUOTE], false) && !Parity([QUOTE], true)
  {
    assert [QUOTE][1..] == [];
  }

  lemma OneByte(stop: byte, b: byte, quoted: bool)
    requires b != QUOTE
    ensures Parity([b], quoted) == quoted && (Within(stop, [b], quoted) <==> quoted || b != stop)
  {
    assert [b][1..] == [];
  }

  /** Bytes outside ASCII are neither quotes nor separators. */
  lemma {:induction false} WideWithin(stop: byte, t: Bytes, quoted: bool)
    requires Separator(stop) && forall i :: 0 <= i < |t| ==> t[i] >= 0x80
    ensures Within(stop, t, quoted) && Parity(t, quoted) == quoted
  {
    if t != [] {
      WideWithin(stop, t[1..], quoted);
    }
  }

  lemma ScalarWithin(stop: byte, quoted: bool, cp: int)
    requires Separator(stop) && ScalarOk(cp) && (quoted || BareScalar(cp))
    ensures var t := QuotedScalar(quoted, cp); Within(stop, t, quoted) && Parity(t, quoted) == quoted
  {
    if quoted && cp == 0x22 {
      QuoteFlips(stop);
      WithinAppend(stop, [QUOTE], [QUOTE], true);
      assert [QUOTE] + [QUOTE] == [QUOTE, QUOTE];
    } else if cp < 0x80 {
      OneByte(stop, cp as byte, quoted);
    } else {
      WideWithin(stop, EncodeScalar(cp), quoted);
    }
  }

  lemma {:induction false} InnerWithin(stop: byte, quoted: bool, t: Text)
    requires Separator(stop) && FieldOk(Field(quoted, t))
    ensures Within(stop, InnerText(quoted, t), quoted) && Parity(InnerText(quoted, t), quoted) == quoted
    decreases |t|
  {
    if t != [] {
      ScalarWithin(stop, quoted, t[0]);
      InnerWithin(stop, quoted, t[1..]);
      hide QuotedScalar, Within, Parity;
      WithinAppend(stop, QuotedScalar(quoted, t[0]), InnerText(quoted, t[1..]), quoted);
    }
  }

  lemma FieldWithin(stop: byte, f: Field)
    requires Separator(stop) && FieldOk(f)
    ensures Within(stop, FieldText(f), false) && !Parity(FieldText(f), false)
  {
    InnerWithin(stop, f.quoted, f.text);
    if f.quoted {
      hide InnerText;
      var inner := InnerText(true, f.text);
      WithinAppend(stop, inner, [QUOTE], true);
      WithinAppend(stop, [QUOTE], inner + [QUOTE], false);
      QuoteFlips(stop);
    }
  }

  lemma {:induction false} FieldsWithin(fields: seq<Field>)
    requires FieldsOk(fields)
    ensures Within(NEWLINE, FieldsText(fields), false) && !Parity(FieldsText(fields), false)
  {
    FieldWithin(NEWLINE, fields[0]);
    if |fields| > 1 {
      FieldsWithin(fields[1..]);
      hide FieldText, Within, Parity;
      OneByte(NEWLINE, COMMA, false);
      WithinAppend(NEWLINE, [COMMA], FieldsText(fields[1..]), false);
      WithinAppend(NEWLINE, FieldText(fields[0]), [COMMA] + FieldsText(fields[1..]), false);
    }
  }

  // ----- records

  /** Bytes up to and including the first newline outside quotes. */
  function FrameOf(s: Bytes): Bytes {
    var t := Until(NEWLINE, s, false);
    if |t| < |s| then s[..|t| + 1] else s
  }

  /** The frame of a rendered record is the record, whatever its quoted fields hold. */
  lemma FramesRecord(line: Line, rest: Bytes)
    requires FieldsOk(line.fields) && (line.end.AtEnd? ==> rest == [])
    ensures FrameOf(LineText(line) + rest) == LineText(line)
  {
    var text, end := FieldsText(line.fields), line.end.Text();
    FieldsWithin(line.fields);
    hide FieldsText;
    match line.end
    case AtEnd =>
      AppendNil(text);
      AppendNil(text + []);
      UntilStop(NEWLINE, text, []);
    case Lf =>
      Append3(text, end, rest);
      UntilStop(NEWLINE, text, rest);
      Behind(text + end, rest);
    case Crlf =>
      var body := text + [RETURN];
      OneByte(NEWLINE, RETURN, false);
      WithinAppend(NEWLINE, text, [RETURN], false);
      UntilStop(NEWLINE, body, rest);
      assert [RETURN] + [NEWLINE] == end;
      Append3(text, [RETURN], [NEWLINE]);
      Append3(body, [NEWLINE], rest);
      Behind(body + [NEWLINE], rest);
  }

  /** All frames of the input. */
  function Frames(s: Bytes): seq<Bytes>
    decreases |s|
  {
    if s == [] then [] else [FrameOf(s)] + Frames(s[|FrameOf(s)|..])
  }

  function Texts(lines: seq<Line>): seq<Bytes>
    requires forall i :: 0 <= i < |lines| ==> FieldsOk(lines[i].fields)
  {
    if lines == [] then [] else [LineText(lines[0])] + Texts(lines[1..])
  }

  function Joined(texts: seq<Bytes>): Bytes {
    if texts == [] then [] else texts[0] + Joined(texts[1..])
  }

  /** Only the last record may lack its line end, and then it must not be empty. */
  predicate TableOk(lines: seq<Line>) {
    forall i :: 0 <= i < |lines| ==> FieldsOk(lines[i].fields) && (lines[i].end.AtEnd? ==> i == |lines| - 1 && LineText(lines[i]) != [])
  }

  lemma LineNonempty(line: Line)
    requires FieldsOk(line.fields) && (line.end.AtEnd? ==> LineText(line) != [])
    ensures |LineText(line)| > 0
  {
    assert line.end.AtEnd? || |line.end.Text()| > 0;
  }

  /** Framing a rendered table gives back its records, one by one. */
  lemma {:induction false} FramesTable(lines: seq<Line>)
    requires TableOk(lines)
    ensures Frames(Joined(Texts(lines))) == Texts(lines)
  {
    if lines != [] {
      var more, text := Joined(Texts(lines[1..])), LineText(lines[0]);
      FramesTable(lines[1..]);
      FramesRecord(lines[0], more);
      LineNonempty(lines[0]);
      Behind(text, more);
      hide LineText, FrameOf;
    }
  }

  /** Reads one frame, which must fit the record buffer. */
  method ReadFrame(input: Bytes) returns (frame: Option<Bytes>, rest: Bytes)
    ensures frame.Some? <==> |FrameOf(input)| <= MAX_ROW_BYTES
    ensures frame.Some? ==> frame.value == FrameOf(input) && rest == input[|frame.value|..]
  {
    var n, quoted := 0, false;
    NothingAdded(Until(NEWLINE, input, false));
    while n < |input|
      invariant n <= |input| && n <= MAX_ROW_BYTES
      invariant Until(NEWLINE, input, false) == input[..n] + Until(NEWLINE, input[n..], quoted)
    {
      var c := input[n];
      if n == MAX_ROW_BYTES {
        return None, input;
      }
      assert input[..n+1] == input[..n] + [c] && input[n..][1..] == input[n+1..];
      if c == NEWLINE && !quoted {
        AppendNil(input[..n]);
        return Some(input[..n+1]), input[n+1..];
      }
      Regroup(input[..n], [c], Until(NEWLINE, input[n+1..], Flip(quoted, c)));
      if c == QUOTE {
        quoted := !quoted;
      }
      n := n + 1;
    }
    assert input[..n] == input && input[n..] == [];
    AppendNil(input);
    return Some(input), [];
  }

  // ----- sizes before decoding

  /** Non-overlapping occurrences of two bytes in a row. */
  function CountPair(s: Bytes, a: byte, b: byte): nat {
    if |s| < 2 then 0
    else if s[0] == a && s[1] == b then 1 + CountPair(s[2..], a, b)
    else CountPair(s[1..], a, b)
  }

  /** Decoding turns a quoted field's line breaks into single newlines. */
  function Unbroken(t: Text): Text {
    if t == [] then []
    else if |t| >= 2 && t[0] == 0x0d && t[1] == 0x0a then [0x0a] + Unbroken(t[2..])
    else [t[0]] + Unbroken(t[1..])
  }

  function Decoded(f: Field): Text { if f.quoted then Unbroken(f.text) else f.text }

  /** The encoded size of a text. */
  function Size(t: Text): nat {
    if t == [] then 0 else ScalarSize(t[0]) + Size(t[1..])
  }

  function ScalarSize(cp: int): nat { if ScalarOk(cp) then |EncodeScalar(cp)| else 0 }

  /** The size a field's spelling announces. */
  function SizeOf(field: Bytes): int {
    if |field| >= 2 && field[0] == QUOTE && field[|field| - 1] == QUOTE then
      |field| - 2 - CountPair(field[1..|field| - 1], QUOTE, QUOTE) - CountPair(field, RETURN, NEWLINE)
    else |field|
  }

  lemma SkipByte(x: byte, s: Bytes, a: byte, b: byte)
    requires x != a || Peek(s) != b
    requires b != 0
    ensures CountPair([x] + s, a, b) == CountPair(s, a, b)
  {
    assert ([x] + s)[1..] == s;
  }

  lemma {:induction false} SkipWide(t: Bytes, s: Bytes, a: byte, b: byte)
    requires a < 0x80 && b != 0 && forall i :: 0 <= i < |t| ==> t[i] >= 0x80
    ensures CountPair(t + s, a, b) == CountPair(s, a, b)
  {
    if t == [] {
      NothingAdded(s);
    } else {
      SkipWide(t[1..], s, a, b);
      Uncons(t);
      Regroup([t[0]], t[1..], s);
      SkipByte(t[0], t[1..] + s, a, b);
    }
  }

  lemma TakePair(s: Bytes, a: byte, b: byte)
    ensures CountPair([a, b] + s, a, b) == 1 + CountPair(s, a, b)
  {
    assert ([a, b] + s)[2..] == s;
  }

  function Quotes(t: Text): nat {
    if t == [] then 0 else (if t[0] == 0x22 then 1 else 0) + Quotes(t[1..])
  }

  function Breaks(t: Text): nat {
    if t == [] then 0
    else if |t| >= 2 && t[0] == 0x0d && t[1] == 0x0a then 1 + Breaks(t[2..])
    else Breaks(t[1..])
  }

  /** Every doubled quote is counted once. */
  lemma {:induction false} InnerQuotes(t: Text)
    requires TextOk(t)
    ensures |InnerText(true, t)| == Size(t) + Quotes(t) && CountPair(InnerText(true, t), QUOTE, QUOTE) == Quotes(t)
  {
    if t != [] {
      InnerQuotes(t[1..]);
      var more := InnerText(true, t[1..]);
      if t[0] == 0x22 {
        TakePair(more, QUOTE, QUOTE);
      } else if t[0] < 0x80 {
        SkipByte(t[0] as byte, more, QUOTE, QUOTE);
      } else {
        SkipWide(EncodeScalar(t[0]), more, QUOTE, QUOTE);
      }
    }
  }

  /** Every line break is counted once; `tail` follows the text. */
  lemma {:induction false} InnerBreaks(t: Text, tail: Bytes)
    requires TextOk(t) && Peek(tail) == QUOTE
    ensures CountPair(InnerText(true, t) + tail, RETURN, NEWLINE) == Breaks(t) + CountPair(tail, RETURN, NEWLINE)
    ensures Peek(InnerText(true, t) + tail) == NEWLINE <==> t != [] && t[0] == 0x0a
    decreases |t|
  {
    if t == [] {
      NothingAdded(tail);
    } else {
      var more := InnerText(true, t[1..]);
      Regroup(QuotedScalar(true, t[0]), more, tail);
      Behind(QuotedScalar(true, t[0]), more + tail);
      InnerBreaks(t[1..], tail);
      if t[0] == 0x22 {
        SkipByte(QUOTE, more + tail, RETURN, NEWLINE);
        SkipByte(QUOTE, [QUOTE] + (more + tail), RETURN, NEWLINE);
        assert [QUOTE, QUOTE] + (more + tail) == [QUOTE] + ([QUOTE] + (more + tail));
      } else if t[0] >= 0x80 {
        SkipWide(EncodeScalar(t[0]), more + tail, RETURN, NEWLINE);
      } else if t[0] == 0x0d && |t| >= 2 && t[1] == 0x0a {
        BreakHere(t, tail);
      } else {
        SkipByte(t[0] as byte, more + tail, RETURN, NEWLINE);
      }
    }
  }

  lemma BreakText(t: Text)
    requires TextOk(t) && |t| >= 2 && t[0] == 0x0d && t[1] == 0x0a
    ensures InnerText(true, t) == [RETURN, NEWLINE] + InnerText(true, t[2..])
  {
    var more := InnerText(true, t[2..]);
    assert t[1..][1..] == t[2..];
    assert InnerText(true, t[1..]) == [NEWLINE] + more;
    assert [RETURN, NEWLINE] == [RETURN] + [NEWLINE];
    Append3([RETURN], [NEWLINE], more);
  }

  lemma BreakHere(t: Text, tail: Bytes)
    requires TextOk(t) && |t| >= 2 && t[0] == 0x0d && t[1] == 0x0a && Peek(tail) == QUOTE
    ensures CountPair(InnerText(true, t) + tail, RETURN, NEWLINE) == Breaks(t) + CountPair(tail, RETURN, NEWLINE)
    decreases |t|, 0
  {
    var more := InnerText(true, t[2..]);
    InnerBreaks(t[2..], tail);
    BreakText(t);
    hide InnerText, TextOk;
    Append3([RETURN, NEWLINE], more, tail);
    TakePair(more + tail, RETURN, NEWLINE);
  }

  lemma {:induction false} UnbrokenSize(t: Text)
    requires TextOk(t)
    ensures Size(Unbroken(t)) + Breaks(t) == Size(t)
  {
    if t == [] {
    } else if |t| >= 2 && t[0] == 0x0d && t[1] == 0x0a {
      UnbrokenSize(t[2..]);
      assert t[1..][1..] == t[2..] && ([0x0a] + Unbroken(t[2..]))[1..] == Unbroken(t[2..]);
      assert ScalarSize(0x0d) == 1 && ScalarSize(0x0a) == 1;
    } else {
      UnbrokenSize(t[1..]);
      assert ([t[0]] + Unbroken(t[1..]))[1..] == Unbroken(t[1..]);
    }
  }

  lemma {:induction false} BareSize(t: Text)
    requires TextOk(t)
    ensures |InnerText(false, t)| == Size(t)
  {
    if t != [] {
      BareSize(t[1..]);
    }
  }

  /** The announced size is the size of the decoded field. */
  lemma SizeExact(f: Field)
    requires FieldOk(f)
    ensures SizeOf(FieldText(f)) == Size(Decoded(f))
  {
    var t := FieldText(f);
    if f.quoted {
      var inner := InnerText(true, f.text);
      InnerQuotes(f.text);
      InnerBreaks(f.text, [QUOTE]);
      UnbrokenSize(f.text);
      hide InnerText;
      SkipByte(QUOTE, inner + [QUOTE], RETURN, NEWLINE);
      assert t[1..|t| - 1] == inner;
    } else {
      BareSize(f.text);
      AppendNil(InnerText(false, f.text));
      BareStart(f.text, []);
    }
  }

  /** The pieces between commas outside quotes. */
  function Pieces(s: Bytes): seq<Bytes>
    decreases |s|
  {
    var p := Until(COMMA, s, false);
    if |p| == |s| then [p] else [p] + Pieces(s[|p| + 1..])
  }

  function FieldTexts(fields: seq<Field>): seq<Bytes>
    requires forall i :: 0 <= i < |fields| ==> FieldOk(fields[i])
  {
    if fields == [] then [] else [FieldText(fields[0])] + FieldTexts(fields[1..])
  }

  /** Splitting a record at its commas gives back its fields. */
  lemma {:induction false} PiecesAreFields(fields: seq<Field>)
    requires FieldsOk(fields)
    ensures Pieces(FieldsText(fields)) == FieldTexts(fields)
  {
    var text := FieldText(fields[0]);
    FieldWithin(COMMA, fields[0]);
    if |fields| == 1 {
      UntilStop(COMMA, text, []);
      assert fields[1..] == [];
    } else {
      var more := FieldsText(fields[1..]);
      PiecesAreFields(fields[1..]);
      hide FieldText;
      UntilStop(COMMA, text, more);
      Append3(text, [COMMA], more);
      Behind(text + [COMMA], more);
    }
  }

  /** Checks a record's field count and sizes before it is decoded. */
  method Preflight(data: Bytes) returns (ok: bool)
    ensures ok <==> |Pieces(data)| <= MAX_FIELDS && forall p :: p in Pieces(data) ==> SizeOf(p) <= MAX_FIELD_BYTES
  {
    hide SizeOf;
    var rest, fields := data, 0;
    ghost var done: seq<Bytes> := [];
    NothingAdded(Pieces(data));
    while true
      invariant Pieces(data) == done + Pieces(rest) && fields == |done| <= MAX_FIELDS
      invariant forall p :: p in done ==> SizeOf(p) <= MAX_FIELD_BYTES
      decreases |rest|
    {
      var field := NextPiece(rest);
      fields := fields + 1;
      if fields > MAX_FIELDS {
        return false;
      }
      assert field in Pieces(rest) && field in Pieces(data);
      if SizeOf(field) > MAX_FIELD_BYTES {
        return false;
      }
      done := done + [field];
      if |field| == |rest| {
        return true;
      }
      Append3(done[..|done| - 1], [field], Pieces(rest[|field| + 1..]));
      assert done == done[..|done| - 1] + [field];
      rest := rest[|field| + 1..];
    }
  }

  /** The bytes up to the next comma outside quotes. */
  method NextPiece(s: Bytes) returns (piece: Bytes)
    ensures piece == Until(COMMA, s, false)
  {
    var i, quoted := 0, false;
    NothingAdded(Until(COMMA, s, false));
    while i < |s|
      invariant i <= |s| && Until(COMMA, s, false) == s[..i] + Until(COMMA, s[i..], quoted)
    {
      assert s[..i+1] == s[..i] + [s[i]] && s[i..][1..] == s[i+1..];
      if s[i] == COMMA && !quoted {
        AppendNil(s[..i]);
        return s[..i];
      }
      Regroup(s[..i], [s[i]], Until(COMMA, s[i+1..], Flip(quoted, s[i])));
      if s[i] == QUOTE {
        quoted := !quoted;
      }
      i := i + 1;
    }
    assert s[..i] == s && s[i..] == [];
    AppendNil(s);
    piece := s;
  }

  /** A rendered record passes exactly when its decoded fields are within the limits. */
  lemma PreflightExact(fields: seq<Field>)
    requires FieldsOk(fields)
    ensures |Pieces(FieldsText(fields))| == |fields|
    ensures (forall p :: p in Pieces(FieldsText(fields)) ==> SizeOf(p) <= MAX_FIELD_BYTES)
       <==> forall i :: 0 <= i < |fields| ==> Size(Decoded(fields[i])) <= MAX_FIELD_BYTES
  {
    PiecesAreFields(fields);
    FieldTextsAt(fields);
    hide SizeOf, Size, FieldText, Pieces;
    forall i | 0 <= i < |fields| ensures SizeOf(FieldTexts(fields)[i]) == Size(Decoded(fields[i])) {
      SizeExact(fields[i]);
    }
    var texts := FieldTexts(fields);
    if forall i :: 0 <= i < |fields| ==> Size(Decoded(fields[i])) <= MAX_FIELD_BYTES {
      forall p | p in texts ensures SizeOf(p) <= MAX_FIELD_BYTES {
        var i :| 0 <= i < |texts| && texts[i] == p;
      }
    }
  }

  lemma {:induction false} FieldTextsAt(fields: seq<Field>)
    requires forall i :: 0 <= i < |fields| ==> FieldOk(fields[i])
    ensures |FieldTexts(fields)| == |fields| && forall i :: 0 <= i < |fields| ==> FieldTexts(fields)[i] == FieldText(fields[i])
  {
    hide FieldText, FieldOk;
    if fields != [] {
      var texts, rest := FieldTexts(fields), fields[1..];
      FieldTextsAt(rest);
      forall i | 0 <= i < |fields| ensures texts[i] == FieldText(fields[i]) {
        if i > 0 {
          assert texts[i] == FieldTexts(rest)[i - 1] && rest[i - 1] == fields[i];
        }
      }
    }
  }
}
