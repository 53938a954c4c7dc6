/** Framing of JSON exports: an object ends at its matching brace, an array is split into
    its objects, and a record's sizes are known before it is decoded. */
module SpendJson {
  import opened Common
  import opened JsonText
  import opened JsonScan
  import opened JsonLanguage
  import opened SpendCsv
  import Utf8

  const MAX_ROWS: nat := 10_000_000

  // ----- what stands between two matching brackets

  predicate Opens(b: byte) { b == Open(true) || b == Open(false) }

  predicate Closes(b: byte) { b == Close(true) || b == Close(false) }

  /** A byte of a number or a literal. */
  predicate Wordy(b: byte) {
    !IsSpace(b) && b != COMMA && b != COLON && b != QUOTE && !Opens(b) && !Closes(b)
  }

  /** Separators, whole words and strings, and nested brackets. Every JSON text is of
      this form, and so is much that is not JSON. */
  datatype Content =
    | Done
    | Mark(b: byte, rest: Content)
    | Token(text: Bytes, rest: Content)
    | Text(chars: seq<Char>, rest: Content)
    | Nest(braces: bool, inside: Content, rest: Content)

  predicate ContentOk(c: Content) {
    match c
    case Done => true
    case Mark(b, rest) => (IsSpace(b) || b == COMMA || b == COLON) && ContentOk(rest)
    case Token(text, rest) => text != [] && (forall i :: 0 <= i < |text| ==> Wordy(text[i])) && !rest.Token? && ContentOk(rest)
    case Text(chars, rest) => CharsOk(chars) && ContentOk(rest)
    case Nest(_, inside, rest) => ContentOk(inside) && ContentOk(rest)
  }

  function ContentText(c: Content): Bytes
    requires ContentOk(c)
  {
    match c
    case Done => []
    case Mark(b, rest) => [b] + ContentText(rest)
    case Token(text, rest) => text + ContentText(rest)
    case Text(chars, rest) => StringText(chars) + ContentText(rest)
    case Nest(braces, inside, rest) => [Open(braces)] + (ContentText(inside) + ([Close(braces)] + ContentText(rest)))
  }

  function Max(a: nat, b: nat): nat { if a < b then b else a }

  /** How deep brackets are nested. */
  function Height(c: Content): nat {
    match c
    case Done => 0
    case Nest(_, inside, rest) => Max(1 + Height(inside), Height(rest))
    case _ => Height(c.rest)
  }

  // ----- the object framer

  datatype Scanner = Scanner(depth: nat, quoted: bool, escaped: bool)

  function Bare(depth: nat): Scanner { Scanner(depth, false, false) }

  function Inside(depth: nat): Scanner { Scanner(depth, true, false) }

  function Next(s: Scanner, b: byte): Scanner {
    if s.quoted then
      if s.escaped then s.(escaped := false)
      else if b == BACKSLASH then s.(escaped := true)
      else if b == QUOTE then s.(quoted := false)
      else s
    else if b == QUOTE then s.(quoted := true)
    else if Opens(b) then s.(depth := s.depth + 1)
    else if Closes(b) && s.depth > 0 then s.(depth := s.depth - 1)
    else s
  }

  datatype Outcome = Closed(used: nat) | TooDeep | Unclosed {
    function After(n: nat): Outcome { if Closed? then Closed(n + used) else this }
  }

  /** How many bytes until every bracket is closed; the export's own array counts
      as one level. */
  function Closing(s: Bytes, at: Scanner): (o: Outcome)
    ensures o.Closed? ==> 1 <= o.used <= |s|
  {
    if s == [] then Unclosed
    else
      var next := Next(at, s[0]);
      if next.depth >= MAX_DEPTH then TooDeep
      else if next.depth == 0 then Closed(1)
      else Closing(s[1..], next).After(1)
  }

  lemma AfterAfter(o: Outcome, a: nat, b: nat)
    ensures o.After(a).After(b) == o.After(b + a) && o.After(0) == o
  {
  }

  /** Bytes that leave the scanner as it is are passed over. */
  lemma {:induction false} Quiet(t: Bytes, rest: Bytes, at: Scanner)
    requires 1 <= at.depth < MAX_DEPTH && forall i :: 0 <= i < |t| ==> Next(at, t[i]) == at
    ensures Closing(t + rest, at) == Closing(rest, at).After(|t|)
  {
    if t == [] {
      NothingAdded(rest);
    } else {
      Quiet(t[1..], rest, at);
      assert (t + rest)[1..] == t[1..] + rest;
    }
  }

  lemma OneStep(b: byte, rest: Bytes, at: Scanner, next: Scanner)
    requires next == Next(at, b) && 1 <= next.depth < MAX_DEPTH
    ensures Closing([b] + rest, at) == Closing(rest, next).After(1)
  {
    Head(b, rest);
  }

  lemma EscapePassed(b: byte, rest: Bytes, depth: nat)
    requires 1 <= depth < MAX_DEPTH
    ensures Closing([BACKSLASH, b] + rest, Inside(depth)) == Closing(rest, Inside(depth)).After(2)
  {
    OneStep(b, rest, Scanner(depth, true, true), Inside(depth));
    OneStep(BACKSLASH, [b] + rest, Inside(depth), Scanner(depth, true, true));
    assert [BACKSLASH, b] + rest == [BACKSLASH] + ([b] + rest);
  }

  lemma UnitPassed(hex: Bytes, rest: Bytes, depth: nat)
    requires 1 <= depth < MAX_DEPTH && IsUnit(hex)
    ensures Closing([BACKSLASH, UNICODE] + hex + rest, Inside(depth)) == Closing(rest, Inside(depth)).After(6)
  {
    Append3([BACKSLASH, UNICODE], hex, rest);
    EscapePassed(UNICODE, hex + rest, depth);
    Quiet(hex, rest, Inside(depth));
  }

  /** No character of a string closes it. */
  lemma CharPassed(c: Char, rest: Bytes, depth: nat)
    requires 1 <= depth < MAX_DEPTH && CharOk(c)
    ensures Closing(CharText(c) + rest, Inside(depth)) == Closing(rest, Inside(depth)).After(|CharText(c)|)
  {
    hide Closing;
    match c
    case Plain(b) =>
      Quiet([b], rest, Inside(depth));
    case Wide(cp) =>
      WideBytes(cp);
      Quiet(WideText(cp), rest, Inside(depth));
    case Escape(b) =>
      EscapePassed(b, rest, depth);
    case Unit(hex) =>
      UnitPassed(hex, rest, depth);
    case Lone(hex) =>
      UnitPassed(hex, rest, depth);
    case Pair(high, low) =>
      var first, second := [BACKSLASH, UNICODE] + high, [BACKSLASH, UNICODE] + low;
      UnitPassed(high, second + rest, depth);
      UnitPassed(low, rest, depth);
      Append3(first, second, rest);
  }

  lemma WideBytes(cp: int)
    requires Utf8.WideScalar(cp)
    ensures forall i :: 0 <= i < |WideText(cp)| ==> WideText(cp)[i] >= 0x80
  {
  }

  lemma {:induction false} CharsPassed(chars: seq<Char>, rest: Bytes, depth: nat)
    requires 1 <= depth < MAX_DEPTH && CharsOk(chars)
    ensures Closing(CharsText(chars) + rest, Inside(depth)) == Closing(rest, Inside(depth)).After(|CharsText(chars)|)
  {
    hide Closing, CharText, CharOk;
    if chars == [] {
      NothingAdded(rest);
    } else {
      CharsPassed(chars[1..], rest, depth);
      CharPassed(chars[0], CharsText(chars[1..]) + rest, depth);
      Append3(CharText(chars[0]), CharsText(chars[1..]), rest);
    }
  }

  lemma StringPassed(chars: seq<Char>, rest: Bytes, depth: nat)
    requires 1 <= depth < MAX_DEPTH && CharsOk(chars)
    ensures Closing(StringText(chars) + rest, Bare(depth)) == Closing(rest, Bare(depth)).After(|StringText(chars)|)
  {
    hide Closing, CharsText, CharsOk;
    var inner := CharsText(chars);
    OneStep(QUOTE, rest, Inside(depth), Bare(depth));
    CharsPassed(chars, [QUOTE] + rest, depth);
    OneStep(QUOTE, inner + ([QUOTE] + rest), Bare(depth), Inside(depth));
    Append3([QUOTE] + inner, [QUOTE], rest);
    Append3([QUOTE], inner, [QUOTE] + rest);
  }

  /** Text with brackets `height` deep is passed over whole, unless they nest too deeply. */
  predicate Passed(t: Bytes, height: nat, rest: Bytes, depth: nat) {
    Closing(t + rest, Bare(depth)) == if height + depth < MAX_DEPTH then Closing(rest, Bare(depth)).After(|t|) else TooDeep
  }

  lemma JoinPassed(t: Bytes, more: Bytes, height: nat, rest: Bytes, depth: nat)
    requires Closing(t + (more + rest), Bare(depth)) == Closing(more + rest, Bare(depth)).After(|t|)
    requires Passed(more, height, rest, depth)
    ensures Passed(t + more, height, rest, depth)
  {
    Append3(t, more, rest);
    hide Closing;
  }

  lemma EnterBracket(braces: bool, s: Bytes, depth: nat)
    requires 1 <= depth < MAX_DEPTH
    ensures Closing([Open(braces)] + s, Bare(depth)) ==
      if depth + 1 < MAX_DEPTH then Closing(s, Bare(depth + 1)).After(1) else TooDeep
  {
    Head(Open(braces), s);
  }

  lemma LeaveBracket(braces: bool, s: Bytes, depth: nat)
    requires 1 <= depth && depth + 1 < MAX_DEPTH
    ensures Closing([Close(braces)] + s, Bare(depth + 1)) == Closing(s, Bare(depth)).After(1)
  {
    OneStep(Close(braces), s, Bare(depth + 1), Bare(depth));
  }

  lemma BracketsPassed(braces: bool, a: Bytes, b: Bytes, rest: Bytes, depth: nat, h: nat, k: nat)
    requires 1 <= depth < MAX_DEPTH && Passed(b, k, rest, depth)
    requires depth + 1 < MAX_DEPTH ==> Passed(a, h, [Close(braces)] + (b + rest), depth + 1)
    ensures Passed([Open(braces)] + (a + ([Close(braces)] + b)), Max(1 + h, k), rest, depth)
  {
    hide Closing;
    var close, open := [Close(braces)], [Open(braces)];
    Append3(close, b, rest);
    Append3(a, close + b, rest);
    Append3(open, a + (close + b), rest);
    EnterBracket(braces, a + (close + (b + rest)), depth);
    if depth + 1 < MAX_DEPTH {
      LeaveBracket(braces, b + rest, depth);
    }
  }

  lemma {:induction false} ContentPassed(c: Content, rest: Bytes, depth: nat)
    requires ContentOk(c) && 1 <= depth < MAX_DEPTH
    ensures Passed(ContentText(c), Height(c), rest, depth)
    decreases c
  {
    if c == Done {
      NothingAdded(rest);
      AfterAfter(Closing(rest, Bare(depth)), 0, 0);
    } else {
      ContentPassed(c.rest, rest, depth);
      var more := ContentText(c.rest) + rest;
      match c
      case Mark(b, _) =>
        Quiet([b], more, Bare(depth));
      case Token(text, _) =>
        Quiet(text, more, Bare(depth));
      case Text(chars, _) =>
        StringPassed(chars, more, depth);
      case Nest(braces, inside, _) =>
        if depth + 1 < MAX_DEPTH {
          ContentPassed(inside, [Close(braces)] + more, depth + 1);
        }
    }
    hide Closing, Passed, StringText, CharsOk;
    match c
    case Done =>
    case Mark(b, more) =>
      JoinPassed([b], ContentText(more), Height(more), rest, depth);
    case Token(text, more) =>
      JoinPassed(text, ContentText(more), Height(more), rest, depth);
    case Text(chars, more) =>
      JoinPassed(StringText(chars), ContentText(more), Height(more), rest, depth);
    case Nest(braces, inside, more) =>
      BracketsPassed(braces, ContentText(inside), ContentText(more), rest, depth, Height(inside), Height(more));
  }

  function ObjectText(inside: Content): (t: Bytes)
    requires ContentOk(inside)
    ensures |t| == |ContentText(inside)| + 2
  {
    [Open(true)] + (ContentText(inside) + [Close(true)])
  }

  lemma LastBracket(rest: Bytes)
    ensures Closing([Close(true)] + rest, Bare(1)) == Closed(1)
  {
    Head(Close(true), rest);
  }

  /** The object's frame is its text, up to the matching brace. */
  lemma FramesObject(inside: Content, rest: Bytes)
    requires ContentOk(inside)
    ensures Closing((ObjectText(inside) + rest)[1..], Bare(1)) ==
      if Height(inside) + 1 < MAX_DEPTH then Closed(|ObjectText(inside)| - 1) else TooDeep
  {
    hide Closing, ContentText, ContentOk, Height;
    var text := ContentText(inside);
    Append3([Open(true)], text + [Close(true)], rest);
    Append3(text, [Close(true)], rest);
    Head(Open(true), text + ([Close(true)] + rest));
    ContentPassed(inside, [Close(true)] + rest, 1);
    LastBracket(rest);
  }

  /** The length of the object at the head of the input, if it can be framed. */
  function ObjectLength(s: Bytes): (n: Option<nat>)
    ensures n.Some? ==> 2 <= n.value <= |s|
  {
    if Peek(s) != Open(true) then None
    else
      var o := Closing(s[1..], Bare(1));
      if o.Closed? && o.used + 1 <= MAX_ROW_BYTES then Some(o.used + 1) else None
  }

  predicate Framed(inside: Content)
    requires ContentOk(inside)
  {
    Height(inside) + 1 < MAX_DEPTH && |ObjectText(inside)| <= MAX_ROW_BYTES
  }

  /** Any object within the limits is framed exactly; any other is refused. */
  lemma ObjectExact(inside: Content, rest: Bytes)
    requires ContentOk(inside)
    ensures ObjectLength(ObjectText(inside) + rest) == if Framed(inside) then Some(|ObjectText(inside)|) else None
  {
    FramesObject(inside, rest);
    hide ContentText, ContentOk, Closing, Height;
  }

  /** Reads an object whose opening brace is next. */
  method ReadObject(s: Bytes) returns (frame: Option<Bytes>)
    requires Peek(s) == Open(true)
    ensures frame == if ObjectLength(s).Some? then Some(s[..ObjectLength(s).value]) else None
  {
    var n, depth, quoted, escaped := 1, 1, false, false;
    AfterAfter(Closing(s[1..], Bare(1)), 0, 0);
    while depth != 0
      invariant 1 <= n <= |s| && n <= MAX_ROW_BYTES && depth < MAX_DEPTH
      invariant Closing(s[1..], Bare(1)) ==
        if depth == 0 then Closed(n - 1) else Closing(s[n..], Scanner(depth, quoted, escaped)).After(n - 1)
      decreases |s| - n
    {
      if n == |s| {
        return None;
      }
      var c := s[n];
      ghost var at := Scanner(depth, quoted, escaped);
      assert s[n..] != [] && s[n..][0] == c && s[n..][1..] == s[n+1..];
      if n == MAX_ROW_BYTES {
        return None;
      }
      if quoted {
        if escaped {
          escaped := false;
        } else if c == BACKSLASH {
          escaped := true;
        } else if c == QUOTE {
          quoted := false;
        }
      } else if c == QUOTE {
        quoted := true;
      } else if Opens(c) {
        depth := depth + 1;
        if depth + 1 > MAX_DEPTH {
          return None;
        }
      } else if Closes(c) {
        depth := depth - 1;
      }
      assert Scanner(depth, quoted, escaped) == Next(at, c);
      n := n + 1;
    }
    frame := Some(s[..n]);
  }

  // ----- the array of objects

  /** An object and the whitespace around it. */
  datatype Element = Element(before: Bytes, inside: Content, after: Bytes)

  predicate ElementOk(e: Element) {
    Space.All(e.before) && Space.All(e.after) && ContentOk(e.inside)
  }

  predicate ElementsOk(elements: seq<Element>) {
    forall i :: 0 <= i < |elements| ==> ElementOk(elements[i])
  }

  function ElementText(e: Element): Bytes
    requires ElementOk(e)
  {
    e.before + (ObjectText(e.inside) + e.after)
  }

  /** The elements, the commas between them and the closing bracket. */
  function ElementsText(elements: seq<Element>): Bytes
    requires elements != [] && ElementsOk(elements)
  {
    ElementText(elements[0]) + if |elements| == 1 then [Close(false)] else [COMMA] + ElementsText(elements[1..])
  }

  function Objects(elements: seq<Element>): seq<Bytes>
    requires ElementsOk(elements)
  {
    if elements == [] then [] else [ObjectText(elements[0].inside)] + Objects(elements[1..])
  }

  /** All elements can be framed. */
  predicate AllFramed(elements: seq<Element>)
    requires ElementsOk(elements)
  {
    elements == [] || (Framed(elements[0].inside) && AllFramed(elements[1..]))
  }

  function Skipped(s: Bytes): (t: Bytes)
    ensures |t| <= |s|
  {
    s[|Span(Space, s)|..]
  }

  /** The next object, and what follows it and the whitespace behind it. */
  function FirstObject(s: Bytes): (r: Option<Parsed<Bytes>>)
    ensures r.Some? ==> |r.value.rest| < |s|
  {
    var t := Skipped(s);
    var n := ObjectLength(t);
    if n.None? then None else Some(Parsed(t[..n.value], Skipped(t[n.value..])))
  }

  /** The objects of at most `room` elements, and what follows the closing bracket. */
  function ReadElements(s: Bytes, room: nat): (r: Option<Parsed<seq<Bytes>>>)
    decreases |s|
  {
    var first := FirstObject(s);
    if room == 0 || first.None? then None
    else
      var u := first.value.rest;
      if Peek(u) == Close(false) then Some(Parsed([first.value.node], u[1..]))
      else if Peek(u) != COMMA then None
      else Prefixed([first.value.node], ReadElements(u[1..], room - 1))
  }

  function Prefixed(frames: seq<Bytes>, r: Option<Parsed<seq<Bytes>>>): Option<Parsed<seq<Bytes>>> {
    if r.None? then None else Some(Parsed(frames + r.value.node, r.value.rest))
  }

  /** The frames of a whole export. */
  function ReadArray(s: Bytes): Option<seq<Bytes>> {
    var t := Skipped(s);
    if Peek(t) != Open(false) then None
    else
      var u := Skipped(t[1..]);
      var r := if Peek(u) == Close(false) then Some(Parsed([], u[1..])) else ReadElements(u, MAX_ROWS);
      if r.None? || Skipped(r.value.rest) != [] then None else Some(r.value.node)
  }

  lemma SkipsSpace(space: Bytes, rest: Bytes)
    requires Space.All(space) && !IsSpace(Peek(rest))
    ensures Skipped(space + rest) == rest
  {
    SpanOf(Space, space, rest);
  }

  /** One element, up to the comma or bracket behind it. */
  lemma ElementRead(e: Element, tail: Bytes)
    requires ElementOk(e) && !IsSpace(Peek(tail))
    ensures FirstObject(ElementText(e) + tail) == if Framed(e.inside) then Some(Parsed(ObjectText(e.inside), tail)) else None
  {
    hide ObjectLength, Framed, ContentOk, Skipped, Space.All;
    var text := ObjectText(e.inside);
    Append3(e.before, text + e.after, tail);
    Append3(text, e.after, tail);
    Behind(text, e.after + tail);
    ObjectStart(e.inside);
    SkipsSpace(e.before, text + (e.after + tail));
    ObjectExact(e.inside, e.after + tail);
    SkipsSpace(e.after, tail);
  }

  lemma ObjectStart(inside: Content)
    requires ContentOk(inside)
    ensures ObjectText(inside) != [] && ObjectText(inside)[0] == Open(true)
  {
    hide ContentText, ContentOk;
  }

  lemma LastElement(e: Element, rest: Bytes, room: nat)
    requires ElementOk(e)
    ensures ReadElements(ElementText(e) + ([Close(false)] + rest), room) ==
      if room > 0 && Framed(e.inside) then Some(Parsed([ObjectText(e.inside)], rest)) else None
  {
    hide FirstObject, ElementText, ObjectText, Framed, ElementOk;
    Head(Close(false), rest);
    ElementRead(e, [Close(false)] + rest);
  }

  lemma NextElement(e: Element, rest: Bytes, room: nat)
    requires ElementOk(e)
    ensures ReadElements(ElementText(e) + ([COMMA] + rest), room) ==
      if room > 0 && Framed(e.inside) then Prefixed([ObjectText(e.inside)], ReadElements(rest, room - 1)) else None
  {
    hide FirstObject, ElementText, ObjectText, Framed, ElementOk;
    Head(COMMA, rest);
    ElementRead(e, [COMMA] + rest);
  }

  lemma UnfoldElements(elements: seq<Element>, rest: Bytes)
    requires elements != [] && ElementsOk(elements)
    ensures ElementOk(elements[0]) && ElementsOk(elements[1..])
    ensures |elements| == 1 ==> ElementsText(elements) + rest == ElementText(elements[0]) + ([Close(false)] + rest)
    ensures |elements| > 1 ==>
      ElementsText(elements) + rest == ElementText(elements[0]) + ([COMMA] + (ElementsText(elements[1..]) + rest))
    ensures Objects(elements) == [ObjectText(elements[0].inside)] + Objects(elements[1..])
    ensures AllFramed(elements) <==> Framed(elements[0].inside) && AllFramed(elements[1..])
    ensures |elements| == 1 ==>
      (Objects(elements) == [ObjectText(elements[0].inside)] && (AllFramed(elements) <==> Framed(elements[0].inside)))
  {
    hide ElementText, ObjectText, Framed;
    if |elements| == 1 {
      assert elements[1..] == [];
      Append3(ElementText(elements[0]), [Close(false)], rest);
    } else {
      var more := ElementsText(elements[1..]);
      Append3(ElementText(elements[0]), [COMMA] + more, rest);
      Append3([COMMA], more, rest);
    }
  }

  /** Every rendered list of elements is split into exactly its objects, unless one of
      them is too large or too deep or there are too many. */
  lemma {:induction false} ElementsExact(elements: seq<Element>, rest: Bytes, room: nat)
    requires elements != [] && ElementsOk(elements)
    ensures ReadElements(ElementsText(elements) + rest, room) ==
      if |elements| <= room && AllFramed(elements) then Some(Parsed(Objects(elements), rest)) else None
    decreases |elements|
  {
    hide ReadElements, ElementsText, ElementText, ObjectText, Objects, AllFramed, Framed, ElementOk, ElementsOk,
        ContentOk;
    UnfoldElements(elements, rest);
    if |elements| == 1 {
      LastElement(elements[0], rest, room);
    } else {
      NextElement(elements[0], ElementsText(elements[1..]) + rest, room);
      if room > 0 {
        ElementsExact(elements[1..], rest, room - 1);
      }
    }
  }

  /** Exporting elements as an array and framing it gives back exactly their objects. */
  lemma ArrayExact(before: Bytes, elements: seq<Element>, after: Bytes)
    requires elements != [] && ElementsOk(elements) && Space.All(before) && Space.All(after)
    ensures ReadArray(before + ([Open(false)] + (ElementsText(elements) + after))) ==
      if |elements| <= MAX_ROWS && AllFramed(elements) then Some(Objects(elements)) else None
  {
    hide ReadElements, ElementsText, ElementsOk, AllFramed, Objects, Skipped, Space.All;
    var s := ElementsText(elements) + after;
    ElementsStart(elements, after);
    ElementsExact(elements, after, MAX_ROWS);
    AllSkipped(after);
    ArrayStart(before, s);
  }

  lemma ArrayStart(before: Bytes, s: Bytes)
    requires Space.All(before) && Peek(Skipped(s)) == Open(true)
    ensures ReadArray(before + ([Open(false)] + s)) ==
      var r := ReadElements(Skipped(s), MAX_ROWS);
      if r.None? || Skipped(r.value.rest) != [] then None else Some(r.value.node)
  {
    hide ReadElements, Skipped, Space.All;
    Head(Open(false), s);
    SkipsSpace(before, [Open(false)] + s);
  }

  lemma AllSkipped(s: Bytes)
    requires Space.All(s)
    ensures Skipped(s) == []
  {
    AppendNil(s);
    SkipsSpace(s, []);
  }

  /** Leading whitespace makes no difference to the elements. */
  lemma ElementsStart(elements: seq<Element>, rest: Bytes)
    requires elements != [] && ElementsOk(elements)
    ensures var s := ElementsText(elements) + rest;
      Peek(Skipped(s)) == Open(true) && ReadElements(Skipped(s), MAX_ROWS) == ReadElements(s, MAX_ROWS)
  {
    hide ObjectLength, ObjectText, ReadElements, Space.All, Skipped;
    var e := elements[0];
    assert ElementOk(e);
    ghost var tail := if |elements| == 1 then [Close(false)] else [COMMA] + ElementsText(elements[1..]);
    Append3(ElementText(e), tail, rest);
    Append3(e.before, ObjectText(e.inside) + e.after, tail + rest);
    Append3(ObjectText(e.inside), e.after, tail + rest);
    ObjectStart(e.inside);
    var t := ObjectText(e.inside) + (e.after + (tail + rest));
    Behind(ObjectText(e.inside), e.after + (tail + rest));
    SkipsSpace(e.before, t);
    SkipTwice(e.before + t, MAX_ROWS);
  }

  lemma SkipTwice(s: Bytes, room: nat)
    ensures Skipped(Skipped(s)) == Skipped(s) && ReadElements(Skipped(s), room) == ReadElements(s, room)
  {
    SpanSplits(Space, s);
    var t := Skipped(s);
    assert Span(Space, t) == [];
    assert t[0..] == t;
    hide Skipped, ObjectLength, Span;
  }

  lemma DropSpace(s: Bytes)
    requires s != [] && IsSpace(s[0])
    ensures Skipped(s) == Skipped(s[1..])
  {
    var n := |Span(Space, s[1..])|;
    assert Span(Space, s) == [s[0]] + Span(Space, s[1..]);
    assert s[n + 1..] == s[1..][n..];
  }

  /** Skips whitespace. */
  method NextByte(s: Bytes) returns (rest: Bytes)
    ensures rest == Skipped(s)
  {
    rest := s;
    while rest != [] && IsSpace(rest[0])
      invariant Skipped(s) == Skipped(rest)
      decreases |rest|
    {
      DropSpace(rest);
      rest := rest[1..];
    }
    assert rest[0..] == rest;
  }

  /** Splits an export into the frames of its objects. */
  method SplitArray(input: Bytes) returns (frames: Option<seq<Bytes>>)
    ensures frames == ReadArray(input)
  {
    hide Skipped, ReadElements;
    var s := NextByte(input);
    if Peek(s) != Open(false) {
      return None;
    }
    SkipTwice(s[1..], MAX_ROWS);
    s := NextByte(s[1..]);
    frames := Some([]);
    if Peek(s) != Close(false) {
      frames, s := SplitElements(s);
      if frames.None? {
        return;
      }
    } else {
      s := s[1..];
    }
    s := NextByte(s);
    if s != [] {
      frames := None;
    }
  }

  method SplitElements(input: Bytes) returns (frames: Option<seq<Bytes>>, rest: Bytes)
    requires input == Skipped(input)
    ensures var r := ReadElements(input, MAX_ROWS);
      if r.None? then frames == None else frames == Some(r.value.node) && rest == r.value.rest
  {
    hide Skipped, ReadElements;
    var s, number := input, 1;
    var read: seq<Bytes> := [];
    PrefixedNothing(ReadElements(input, MAX_ROWS));
    while true
      invariant 1 <= number <= MAX_ROWS + 1 && s == Skipped(s)
      invariant ReadElements(input, MAX_ROWS) == Prefixed(read, ReadElements(s, MAX_ROWS + 1 - number))
      decreases |s|
    {
      ElementsStep(read, s, MAX_ROWS + 1 - number);
      if number > MAX_ROWS || Peek(s) != Open(true) {
        return None, s;
      }
      var frame := ReadObject(s);
      if frame.None? {
        return None, s;
      }
      rest := NextByte(s[|frame.value|..]);
      if Peek(rest) == Close(false) {
        return Some(read + [frame.value]), rest[1..];
      }
      if Peek(rest) != COMMA {
        return None, s;
      }
      SkipTwice(rest[1..], MAX_ROWS - number);
      s := NextByte(rest[1..]);
      read := read + [frame.value];
      number := number + 1;
    }
  }

  lemma PrefixedNothing(r: Option<Parsed<seq<Bytes>>>)
    ensures Prefixed([], r) == r
  {
    if r.Some? {
      NothingAdded(r.value.node);
    }
  }

  /** One element is added to those already read. */
  lemma ElementsStep(read: seq<Bytes>, s: Bytes, room: nat)
    requires s == Skipped(s)
    ensures Prefixed(read, ReadElements(s, room)) ==
      if room == 0 || ObjectLength(s).None? then None
      else
        var n := ObjectLength(s).value;
        var u, sofar := Skipped(s[n..]), read + [s[..n]];
        if Peek(u) == Close(false) then Some(Parsed(sofar, u[1..]))
        else if Peek(u) != COMMA then None
        else Prefixed(sofar, ReadElements(u[1..], room - 1))
  {
    hide Skipped, ObjectLength;
    var n := ObjectLength(s);
    if room > 0 && n.Some? {
      var u := Skipped(s[n.value..]);
      if Peek(u) == COMMA {
        var more := ReadElements(u[1..], room - 1);
        if more.Some? {
          Append3(read, [s[..n.value]], more.value.node);
        }
      }
    }
  }
}
