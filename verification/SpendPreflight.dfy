/** Sizes of a JSON record, known before it is decoded: the decoded size of every string,
    the size of every number or literal, the fields of every object, and the depth. */
module SpendPreflight {
  import opened Common
  import opened JsonText
  import opened JsonLanguage
  import opened JsonFields
  import opened SpendCsv
  import opened SpendJson
  import Utf8

  // ----- strings

  const REPLACEMENT: int := 0xfffd

  datatype Rune = Rune(value: int, width: nat)

  /** The scalar at the head of some bytes; malformed bytes are read one at a time. */
  function FirstRune(s: Bytes): (r: Rune)
    requires s != []
    ensures 1 <= r.width <= |s|
  {
    var n := Utf8.Width(s[0]);
    if s[0] < 0x80 then Rune(s[0] as int, 1)
    else if n <= |s| && Utf8.WellFormed(s[..n]) then Rune(Utf8.Decode(s[..n]), n)
    else Rune(REPLACEMENT, 1)
  }

  /** The encoded size of a scalar. */
  function RuneLength(value: int): nat {
    if value < 0x80 then 1 else if value < 0x800 then 2 else if value < 0x10000 then 3 else 4
  }

  /** The escape behind a backslash: its scalar and its width, or None if it is not
      a code unit or half of a surrogate pair. */
  function EscapeRune(s: Bytes): (r: Option<Rune>)
    ensures r.Some? ==> 1 <= r.value.width <= |s|
  {
    if s == [] then None
    else if s[0] != UNICODE then Some(Rune(s[0] as int, 1))
    else if |s| < 5 || !IsUnit(s[1..5]) then None
    else
      var u := UnitValue(s[1..5]);
      if !IsHigh(u) && !IsLow(u) then Some(Rune(u, 5))
      else if IsHigh(u) && |s| >= 11 && s[5] == BACKSLASH && s[6] == UNICODE && IsUnit(s[7..11]) && IsLow(UnitValue(s[7..11])) then
        Some(Rune(0x10000 + (u - 0xd800) * 0x400 + (UnitValue(s[7..11]) - 0xdc00), 11))
      else None
  }

  /** The next character of a string, as spelled. */
  function NextRune(s: Bytes): (r: Option<Rune>)
    requires s != []
    ensures r.Some? ==> 1 <= r.value.width <= |s|
  {
    if s[0] != BACKSLASH then Some(FirstRune(s))
    else
      var e := EscapeRune(s[1..]);
      if e.None? then None else Some(Rune(e.value.value, 1 + e.value.width))
  }

  /** How many bytes are left of a string whose scalars, encoded, take at most `room` bytes,
      its closing quote included. */
  function StringEnd(s: Bytes, room: int): (n: Option<nat>)
    ensures n.Some? ==> 1 <= n.value <= |s|
    decreases |s|
  {
    if s == [] then None
    else if s[0] == QUOTE then Some(1)
    else
      var r := NextRune(s);
      if r.None? || RuneLength(r.value.value) > room then None
      else
        var n := StringEnd(s[r.value.width..], room - RuneLength(r.value.value));
        if n.None? then None else Some(r.value.width + n.value)
  }

  /** The size of decoded scalars in UTF-8. */
  function EncodedSize(scalars: seq<int>): nat {
    if scalars == [] then 0 else RuneLength(scalars[0]) + EncodedSize(scalars[1..])
  }

  lemma LengthIsEncoded(cp: int)
    requires Utf8.WideScalar(cp)
    ensures RuneLength(cp) == |Utf8.Encode(cp)|
  {
    hide Utf8.High, Utf8.Low;
  }

  lemma WideRune(cp: int, rest: Bytes)
    requires Utf8.WideScalar(cp)
    ensures var s := WideText(cp) + rest; s != [] && NextRune(s) == Some(Rune(cp, |WideText(cp)|))
  {
    var t := WideText(cp);
    Behind(t, rest);
    hide Utf8.Decode, Utf8.Encode;
  }

  lemma EscapedRune(b: byte, rest: Bytes)
    requires IsEscape(b)
    ensures NextRune([BACKSLASH, b] + rest) == Some(Rune(b as int, 2))
  {
    assert ([BACKSLASH, b] + rest)[1..] == [b] + rest;
    Head(b, rest);
  }

  lemma UnitRune(hex: Bytes, rest: Bytes)
    requires IsUnit(hex) && !IsHigh(UnitValue(hex)) && !IsLow(UnitValue(hex))
    ensures NextRune([BACKSLASH, UNICODE] + hex + rest) == Some(Rune(UnitValue(hex), 6))
  {
    var s := [BACKSLASH, UNICODE] + hex + rest;
    assert s[1..][1..5] == hex && s[1..][0] == UNICODE;
    hide IsUnit, UnitValue;
  }

  lemma PairRune(high: Bytes, low: Bytes, rest: Bytes)
    requires IsUnit(high) && IsHigh(UnitValue(high)) && IsUnit(low) && IsLow(UnitValue(low))
    ensures NextRune([BACKSLASH, UNICODE] + high + ([BACKSLASH, UNICODE] + low) + rest) == Some(Rune(Scalar(Pair(high, low)), 12))
  {
    var s := [BACKSLASH, UNICODE] + high + ([BACKSLASH, UNICODE] + low) + rest;
    var t := s[1..];
    assert t[0] == UNICODE && t[1..5] == high && t[5] == BACKSLASH && t[6] == UNICODE && t[7..11] == low;
    hide IsUnit, UnitValue;
  }

  /** The other half of a pair is next. */
  predicate LowNext(s: Bytes) {
    |s| >= 6 && s[0] == BACKSLASH && s[1] == UNICODE && IsUnit(s[2..6]) && IsLow(UnitValue(s[2..6]))
  }

  /** A surrogate that is not half of a pair stands for no text. */
  lemma LoneRune(c: Char, rest: Bytes)
    requires LoneLow(c) || (LoneHigh(c) && !LowNext(rest))
    ensures CharOk(c) && NextRune(CharText(c) + rest) == None
  {
    assert |c.hex| == 4;
    hide IsUnit, UnitValue;
    var s := [BACKSLASH, UNICODE] + c.hex + rest;
    var t := s[1..];
    assert t == [UNICODE] + c.hex + rest;
    assert t[1..5] == c.hex;
    if |rest| >= 6 {
      assert t[5] == rest[0] && t[6] == rest[1] && t[7..11] == rest[2..6];
    }
  }

  /** Only a lone low surrogate is spelled as the other half of a pair. */
  lemma CharNotLow(c: Char, rest: Bytes)
    requires CharOk(c) && !LoneLow(c)
    ensures !LowNext(CharText(c) + rest)
  {
    var s := CharText(c) + rest;
    match c
    case Plain(_) =>
    case Wide(cp) =>
      assert s[0] == WideText(cp)[0];
    case Escape(_) =>
    case Pair(high, low) =>
      assert s[2..6] == high;
    case Unit(hex) =>
      assert s[2..6] == hex;
    case Lone(hex) =>
      assert s[2..6] == hex;
    hide IsUnit, UnitValue, WideText, Utf8.WideScalar;
  }

  lemma NoLow(chars: seq<Char>, rest: Bytes)
    requires CharsOk(chars) && (chars != [] ==> !LoneLow(chars[0]))
    ensures !LowNext(CharsText(chars) + ([QUOTE] + rest))
  {
    if chars != [] {
      var tail := CharsText(chars[1..]) + ([QUOTE] + rest);
      CharNotLow(chars[0], tail);
      Append3(CharText(chars[0]), CharsText(chars[1..]), [QUOTE] + rest);
    }
    hide CharText, CharOk, LoneLow, LoneHigh;
  }

  /** Every character's size is that of its scalar, escapes and surrogate pairs included. */
  lemma CharRune(c: Char, rest: Bytes)
    requires CharOk(c) && !c.Lone?
    ensures var r := NextRune(CharText(c) + rest);
      r.Some? && r.value.width == |CharText(c)| && RuneLength(r.value.value) == RuneLength(Scalar(c))
  {
    hide NextRune;
    match c
    case Plain(b) =>
      PlainRune(b, rest);
    case Wide(cp) =>
      WideRune(cp, rest);
    case Escape(b) =>
      EscapedRune(b, rest);
    case Unit(hex) =>
      UnitRune(hex, rest);
    case Pair(high, low) =>
      PairRune(high, low, rest);
  }

  lemma PlainRune(b: byte, rest: Bytes)
    requires b < 0x80 && b != BACKSLASH
    ensures NextRune([b] + rest) == Some(Rune(b as int, 1))
  {
  }

  /** A string of the text grammar is measured exactly: its end is found if and only if it
      stands for some text that fits, whatever its spelling. */
  lemma {:induction false} StringMeasured(chars: seq<Char>, rest: Bytes, room: int)
    requires CharsOk(chars) && room >= 0
    ensures StringEnd(CharsText(chars) + ([QUOTE] + rest), room) ==
      if Paired(chars) && EncodedSize(Scalars(chars)) <= room then Some(|CharsText(chars)| + 1) else None
    decreases |chars|
  {
    hide CharText, CharOk, NextRune, RuneLength, Scalar;
    if chars == [] {
      NothingAdded([QUOTE] + rest);
    } else if chars[0].Lone? {
      LoneEnds(chars, rest, room);
    } else {
      var text, more := CharText(chars[0]), CharsText(chars[1..]);
      var tail := more + ([QUOTE] + rest);
      var size := RuneLength(Scalar(chars[0]));
      SizesSplit(chars);
      CharRune(chars[0], tail);
      Append3(text, more, [QUOTE] + rest);
      Behind(text, tail);
      if size <= room {
        StringMeasured(chars[1..], rest, room - size);
      }
    }
  }

  lemma LoneEnds(chars: seq<Char>, rest: Bytes, room: int)
    requires CharsOk(chars) && chars != [] && chars[0].Lone?
    ensures StringEnd(CharsText(chars) + ([QUOTE] + rest), room) == None
  {
    var c, more := chars[0], chars[1..];
    assert CharOk(c);
    assert LoneHigh(c) && more != [] ==> !LoneLow(more[0]) by { assert more != [] ==> more[0] == chars[1]; }
    var tail := CharsText(more) + ([QUOTE] + rest);
    if LoneHigh(c) {
      NoLow(more, rest);
    }
    LoneRune(c, tail);
    Append3(CharText(c), CharsText(more), [QUOTE] + rest);
    hide CharText, NextRune, LowNext;
  }

  lemma SizesSplit(chars: seq<Char>)
    requires CharsOk(chars) && chars != []
    ensures EncodedSize(Scalars(chars)) == RuneLength(Scalar(chars[0])) + EncodedSize(Scalars(chars[1..]))
  {
    assert Scalars(chars)[1..] == Scalars(chars[1..]);
  }

  /** Finds the end of the string whose opening quote is at `start - 1`. */
  method FindStringEnd(data: Bytes, start: nat) returns (end: Option<nat>)
    requires start <= |data|
    ensures end == var n := StringEnd(data[start..], MAX_FIELD_BYTES); if n.None? then None else Some(start + n.value)
  {
    hide NextRune, RuneLength;
    var i, size := start, 0;
    while i < |data|
      invariant start <= i <= |data| && 0 <= size <= MAX_FIELD_BYTES
      invariant var whole, n := StringEnd(data[start..], MAX_FIELD_BYTES), StringEnd(data[i..], MAX_FIELD_BYTES - size);
        (whole.Some? <==> n.Some?) && (whole.Some? ==> start + whole.value == i + n.value)
    {
      var s := data[i..];
      if data[i] == QUOTE {
        return Some(i + 1);
      }
      var r := ReadRune(s);
      if r.None? {
        return None;
      }
      assert s[r.value.width..] == data[i + r.value.width..];
      size := size + RuneLength(r.value.value);
      if size > MAX_FIELD_BYTES {
        return None;
      }
      i := i + r.value.width;
    }
    end := None;
  }

  method ReadRune(s: Bytes) returns (r: Option<Rune>)
    requires s != []
    ensures r == NextRune(s)
  {
    r := Some(FirstRune(s));
    if s[0] == BACKSLASH {
      r := EscapeRune(s[1..]);
      if r.Some? {
        r := Some(Rune(r.value.value, 1 + r.value.width));
      }
    }
  }

  // ----- structure

  /** How many fields each open bracket has so far, the innermost first. */
  datatype Levels = Ground | Level(fields: nat, below: Levels) {
    function Depth(): nat { if Ground? then 0 else 1 + below.Depth() }
  }

  /** The length of the word at the head of the input. */
  function WordLength(s: Bytes): (n: nat)
    ensures n <= |s| && (n == 0 <==> s == [] || !Wordy(s[0]))
  {
    if s == [] || !Wordy(s[0]) then 0 else 1 + WordLength(s[1..])
  }

  predicate Structural(b: byte) { Opens(b) || Closes(b) || b == COLON }

  /** The levels behind a bracket or a colon, unless a limit is exceeded or nothing is open. */
  function Shift(b: byte, outer: nat, at: Levels): Option<Levels> {
    if Opens(b) then
      if outer + at.Depth() == MAX_DEPTH then None else Some(Level(0, at))
    else if at.Ground? then None
    else if Closes(b) then Some(at.below)
    else if at.fields + 1 > MAX_FIELDS then None
    else Some(Level(at.fields + 1, at.below))
  }

  /** Whether a record, whose outermost bracket is at depth `outer`, is within the limits. */
  predicate Checked(s: Bytes, outer: nat, at: Levels)
    decreases |s|
  {
    if s == [] then true
    else
      var b := s[0];
      if Structural(b) then
        var next := Shift(b, outer, at);
        next.Some? && Checked(s[1..], outer, next.value)
      else if b == QUOTE then
        var n := StringEnd(s[1..], MAX_FIELD_BYTES);
        n.Some? && Checked(s[1 + n.value..], outer, at)
      else if IsSpace(b) || b == COMMA then Checked(s[1..], outer, at)
      else WordLength(s) <= MAX_FIELD_BYTES && Checked(s[WordLength(s)..], outer, at)
  }

  function Stack(fields: seq<nat>): (l: Levels)
    ensures l.Depth() == |fields| && (l.Ground? <==> fields == [])
  {
    if fields == [] then Ground else Level(fields[|fields| - 1], Stack(fields[..|fields| - 1]))
  }

  lemma PushLevel(fields: seq<nat>, n: nat)
    ensures Stack(fields + [n]) == Level(n, Stack(fields))
  {
    assert (fields + [n])[..|fields|] == fields;
  }

  lemma SetLevel(fields: seq<nat>, n: nat)
    requires fields != []
    ensures Stack(fields[|fields| - 1 := n]) == Level(n, Stack(fields).below)
  {
    assert fields[|fields| - 1 := n][..|fields| - 1] == fields[..|fields| - 1];
  }

  lemma WordAt(data: Bytes, i: nat)
    requires i < |data| && Wordy(data[i])
    ensures WordLength(data[i..]) == 1 + WordLength(data[i+1..])
  {
    assert data[i..][1..] == data[i+1..];
  }

  /** The end of the word at `start`, or None if it is too long. */
  method FindWordEnd(data: Bytes, start: nat) returns (end: Option<nat>)
    requires start < |data|
    ensures end == var n := WordLength(data[start..]); if n > MAX_FIELD_BYTES then None else Some(start + n)
  {
    var i := start;
    while i < |data| && Wordy(data[i])
      invariant start <= i <= |data| && i - start <= MAX_FIELD_BYTES
      invariant start + WordLength(data[start..]) == i + WordLength(data[i..])
    {
      WordAt(data, i);
      i := i + 1;
      if i - start > MAX_FIELD_BYTES {
        return None;
      }
    }
    end := Some(i);
  }

  /** Opens or closes a level, or counts a field in the innermost one. */
  method Restack(fields: array<nat>, b: byte, outer: nat, depth: nat) returns (depth': nat, ok: bool)
    requires fields.Length == MAX_DEPTH && outer <= depth <= MAX_DEPTH && Structural(b)
    modifies fields
    ensures var next := Shift(b, outer, Stack(old(fields[outer..depth])));
      (ok <==> next.Some?) && (ok ==> outer <= depth' <= MAX_DEPTH && Stack(fields[outer..depth']) == next.value)
  {
    ghost var open := fields[outer..depth];
    depth', ok := depth, true;
    if Opens(b) {
      if depth == MAX_DEPTH {
        return depth, false;
      }
      fields[depth] := 0;
      depth' := depth + 1;
      PushLevel(open, 0);
      assert fields[outer..depth'] == open + [0];
    } else if Closes(b) {
      if depth == outer {
        return depth, false;
      }
      depth' := depth - 1;
      assert fields[outer..depth'] == open[..|open| - 1];
    } else {
      if depth == outer {
        return depth, false;
      }
      fields[depth - 1] := fields[depth - 1] + 1;
      ok := fields[depth - 1] <= MAX_FIELDS;
      SetLevel(open, fields[depth - 1]);
      assert fields[outer..depth] == open[|open| - 1 := fields[depth - 1]];
    }
  }

  /** What a record must meet: valid encoding, sizes and structure. */
  predicate Passes(data: Bytes, outer: nat) {
    Utf8.Valid(data) && Checked(data, outer, Ground)
  }

  /** Checks the encoding, the sizes and the structure of a record, before anything of it is
      decoded. */
  method Preflight(data: Bytes, outer: nat) returns (ok: bool)
    requires outer <= MAX_DEPTH
    ensures ok <==> Passes(data, outer)
  {
    if !Utf8.Valid(data) {
      return false;
    }
    ok := CheckStructure(data, outer);
  }

  method CheckStructure(data: Bytes, outer: nat) returns (ok: bool)
    requires outer <= MAX_DEPTH
    ensures ok <==> Checked(data, outer, Ground)
  {
    hide WordLength, StringEnd, Structural, Shift, Stack, IsSpace, Wordy;
    var fields := new nat[MAX_DEPTH];
    var depth, i := outer, 0;
    EmptyStack(fields[outer..depth]);
    assert data[i..] == data;
    ok := true;
    while i < |data|
      invariant outer <= depth <= MAX_DEPTH && i <= |data|
      invariant Checked(data, outer, Ground) <==> Checked(data[i..], outer, Stack(fields[outer..depth]))
    {
      var b := data[i];
      assert data[i..][0] == b && data[i..][1..] == data[i+1..];
      if Structural(b) {
        depth, ok := Restack(fields, b, outer, depth);
        if !ok {
          return;
        }
        i := i + 1;
      } else if b == QUOTE {
        var end := FindStringEnd(data, i + 1);
        if end.None? {
          return false;
        }
        i := end.value;
      } else if IsSpace(b) || b == COMMA {
        i := i + 1;
      } else {
        OtherIsWordy(b);
        var end := FindWordEnd(data, i);
        if end.None? {
          return false;
        }
        i := end.value;
      }
    }
    assert data[i..] == [];
  }

  lemma OtherIsWordy(b: byte)
    requires !Structural(b) && b != QUOTE && !IsSpace(b) && b != COMMA
    ensures Wordy(b)
  {
  }

  lemma EmptyStack(fields: seq<nat>)
    requires fields == []
    ensures Stack(fields) == Ground
  {
  }

  // ----- what the check means for well-formed content

  /** Fields directly inside the enclosing brackets. */
  function Colons(c: Content): nat {
    match c
    case Done => 0
    case Mark(b, rest) => (if b == COLON then 1 else 0) + Colons(rest)
    case _ => Colons(c.rest)
  }

  /** A string stands for some text, which is short enough. */
  predicate Small(chars: seq<Char>)
    requires CharsOk(chars)
  {
    Paired(chars) && EncodedSize(Scalars(chars)) <= MAX_FIELD_BYTES
  }

  /** Every string and word is short enough, and brackets nest at most `levels` deep with a
      bounded number of fields each. */
  predicate Fits(c: Content, levels: nat)
    requires ContentOk(c)
  {
    match c
    case Done => true
    case Mark(_, rest) => Fits(rest, levels)
    case Token(text, rest) => |text| <= MAX_FIELD_BYTES && Fits(rest, levels)
    case Text(chars, rest) => Small(chars) && Fits(rest, levels)
    case Nest(_, inside, rest) =>
      levels > 0 && Colons(inside) <= MAX_FIELDS && Fits(inside, levels - 1) && Fits(rest, levels)
  }

  /** The check's result behind some content. */
  predicate Counted(c: Content, rest: Bytes, outer: nat, at: Levels)
    requires ContentOk(c) && at.Level? && outer + at.Depth() <= MAX_DEPTH
  {
    && Fits(c, MAX_DEPTH - outer - at.Depth()) && at.fields + Colons(c) <= MAX_FIELDS
    && Checked(rest, outer, Level(at.fields + Colons(c), at.below))
  }

  lemma {:induction false} WordOf(text: Bytes, rest: Bytes)
    requires (forall i :: 0 <= i < |text| ==> Wordy(text[i])) && (rest == [] || !Wordy(rest[0]))
    ensures WordLength(text + rest) == |text|
  {
    if text == [] {
      NothingAdded(rest);
    } else {
      WordOf(text[1..], rest);
      assert (text + rest)[1..] == text[1..] + rest;
    }
  }

  lemma CheckMark(b: byte, rest: Bytes, outer: nat, at: Levels)
    requires IsSpace(b) || b == COMMA || b == COLON
    ensures Checked([b] + rest, outer, at) <==>
      if b != COLON then Checked(rest, outer, at)
      else at.Level? && at.fields < MAX_FIELDS && Checked(rest, outer, Level(at.fields + 1, at.below))
  {
    Head(b, rest);
    hide StringEnd, WordLength;
  }

  lemma CheckWord(text: Bytes, rest: Bytes, outer: nat, at: Levels)
    requires text != [] && (forall i :: 0 <= i < |text| ==> Wordy(text[i])) && (rest == [] || !Wordy(rest[0]))
    ensures Checked(text + rest, outer, at) <==> |text| <= MAX_FIELD_BYTES && Checked(rest, outer, at)
  {
    WordOf(text, rest);
    Behind(text, rest);
    hide StringEnd, WordLength;
  }

  lemma CheckString(chars: seq<Char>, rest: Bytes, outer: nat, at: Levels)
    requires CharsOk(chars)
    ensures Checked(StringText(chars) + rest, outer, at) <==>
      (Small(chars) && Checked(rest, outer, at))
  {
    hide StringEnd, CharsText, CharsOk, Paired, WordLength, Scalars, EncodedSize;
    var inner := CharsText(chars);
    StringMeasured(chars, rest, MAX_FIELD_BYTES);
    Append3([QUOTE] + inner, [QUOTE], rest);
    Append3([QUOTE], inner, [QUOTE] + rest);
    Append3(inner, [QUOTE], rest);
    Behind(inner + [QUOTE], rest);
    Behind(StringText(chars), rest);
  }

  lemma CheckOpen(braces: bool, rest: Bytes, outer: nat, at: Levels)
    ensures Checked([Open(braces)] + rest, outer, at) <==>
      (outer + at.Depth() != MAX_DEPTH && Checked(rest, outer, Level(0, at)))
  {
    Head(Open(braces), rest);
    hide StringEnd, WordLength;
  }

  lemma CheckClose(braces: bool, rest: Bytes, outer: nat, at: Levels)
    ensures Checked([Close(braces)] + rest, outer, at) <==> at.Level? && Checked(rest, outer, at.below)
  {
    Head(Close(braces), rest);
    hide StringEnd, WordLength;
  }

  lemma NestText(braces: bool, inside: Content, more: Content, rest: Bytes)
    requires ContentOk(inside) && ContentOk(more)
    ensures ContentText(Nest(braces, inside, more)) + rest
         == [Open(braces)] + (ContentText(inside) + ([Close(braces)] + (ContentText(more) + rest)))
  {
    var a, b := ContentText(inside), ContentText(more);
    Append3([Close(braces)], b, rest);
    Append3(a, [Close(braces)] + b, rest);
    Append3([Open(braces)], a + ([Close(braces)] + b), rest);
  }

  lemma CloseStops(braces: bool, rest: Bytes)
    ensures !Wordy(([Close(braces)] + rest)[0])
  {
  }

  /** No word can run on behind content that is not itself continued by one. */
  lemma ContentStart(c: Content, rest: Bytes)
    requires ContentOk(c) && !c.Token? && (rest == [] || !Wordy(rest[0]))
    ensures var s := ContentText(c) + rest; s == [] || !Wordy(s[0])
  {
    if c == Done {
      NothingAdded(rest);
    }
  }

  /** Brackets and what follows them, given what the check finds in each part. */
  lemma NestChecked(braces: bool, inside: Content, more: Content, rest: Bytes, outer: nat, at: Levels)
    requires ContentOk(inside) && ContentOk(more) && at.Level? && outer + at.Depth() <= MAX_DEPTH
    requires var tail := [Close(braces)] + (ContentText(more) + rest);
      outer + at.Depth() < MAX_DEPTH ==>
        (Checked(ContentText(inside) + tail, outer, Level(0, at)) <==> Counted(inside, tail, outer, Level(0, at)))
    requires Checked(ContentText(more) + rest, outer, at) <==> Counted(more, rest, outer, at)
    ensures var c := Nest(braces, inside, more); Checked(ContentText(c) + rest, outer, at) <==> Counted(c, rest, outer, at)
  {
    hide Checked, ContentText, ContentOk;
    NestText(braces, inside, more, rest);
    CheckOpen(braces, ContentText(inside) + ([Close(braces)] + (ContentText(more) + rest)), outer, at);
    CheckClose(braces, ContentText(more) + rest, outer, Level(Colons(inside), at));
  }

  /** Content in front of a closing bracket is checked for exactly what it means. */
  lemma {:induction false} ContentChecked(c: Content, rest: Bytes, outer: nat, at: Levels)
    requires ContentOk(c) && at.Level? && outer + at.Depth() <= MAX_DEPTH && at.fields <= MAX_FIELDS
    requires rest == [] || !Wordy(rest[0])
    ensures Checked(ContentText(c) + rest, outer, at) <==> Counted(c, rest, outer, at)
    decreases c
  {
    hide Checked, StringText, CharsOk, Small, Wordy;
    if c == Done {
      NothingAdded(rest);
    } else {
      var more := ContentText(c.rest);
      match c
      case Mark(b, _) =>
        Append3([b], more, rest);
        CheckMark(b, more + rest, outer, at);
        var next := if b == COLON then Level(at.fields + 1, at.below) else at;
        if next.fields <= MAX_FIELDS {
          ContentChecked(c.rest, rest, outer, next);
        }
      case Token(text, _) =>
        Append3(text, more, rest);
        ContentStart(c.rest, rest);
        CheckWord(text, more + rest, outer, at);
        ContentChecked(c.rest, rest, outer, at);
      case Text(chars, _) =>
        Append3(StringText(chars), more, rest);
        CheckString(chars, more + rest, outer, at);
        ContentChecked(c.rest, rest, outer, at);
      case Nest(braces, inside, _) =>
        CloseStops(braces, more + rest);
        if outer + at.Depth() != MAX_DEPTH {
          ContentChecked(inside, [Close(braces)] + (more + rest), outer, Level(0, at));
        }
        ContentChecked(c.rest, rest, outer, at);
        NestChecked(braces, inside, c.rest, rest, outer, at);
    }
  }

  /** An object is accepted if and only if its depth, its fields, its strings and its words
      are within the limits. */
  lemma ObjectChecked(inside: Content, outer: nat)
    requires ContentOk(inside) && outer < MAX_DEPTH
    ensures Checked(ObjectText(inside), outer, Ground) <==>
      (Fits(inside, MAX_DEPTH - outer - 1) && Colons(inside) <= MAX_FIELDS)
  {
    hide Checked, ContentText, ContentOk, Fits, Colons, Wordy;
    CloseStops(true, []);
    CheckOpen(true, ContentText(inside) + [Close(true)], outer, Ground);
    ContentChecked(inside, [Close(true)], outer, Level(0, Ground));
    AppendNil([Close(true)]);
    CheckClose(true, [], outer, Level(Colons(inside), Ground));
    NothingLeft(outer);
  }

  lemma NothingLeft(outer: nat)
    ensures Checked([], outer, Ground)
  {
  }

  // ----- the encoding

  /** Every word is valid text; strings are by their grammar. */
  predicate Legible(c: Content) {
    match c
    case Done => true
    case Token(text, rest) => Utf8.Valid(text) && Legible(rest)
    case Nest(_, inside, rest) => Legible(inside) && Legible(rest)
    case _ => Legible(c.rest)
  }

  lemma CharValid(c: Char)
    requires CharOk(c)
    ensures Utf8.Valid(CharText(c))
  {
    match c
    case Wide(cp) =>
      Utf8.WideValid(cp);
    case _ =>
      Utf8.AsciiValid(CharText(c));
  }

  lemma {:induction false} CharsValid(chars: seq<Char>)
    requires CharsOk(chars)
    ensures Utf8.Valid(CharsText(chars))
  {
    hide CharText, CharOk;
    if chars != [] {
      CharValid(chars[0]);
      CharsValid(chars[1..]);
      Utf8.ValidBehind(CharText(chars[0]), CharsText(chars[1..]));
    }
  }

  lemma StringValid(chars: seq<Char>)
    requires CharsOk(chars)
    ensures Utf8.Valid(StringText(chars))
  {
    hide CharsText, CharsOk;
    CharsValid(chars);
    Utf8.AsciiValid([QUOTE]);
    Utf8.ValidBehind([QUOTE], CharsText(chars));
    Utf8.ValidBehind([QUOTE] + CharsText(chars), [QUOTE]);
  }

  lemma MarkValid(b: byte)
    requires b < 0x80
    ensures Utf8.Valid([b])
  {
    Utf8.AsciiValid([b]);
  }

  lemma TokenEnds(c: Content)
    requires ContentOk(c) && !c.Token?
    ensures ContentText(c) == [] || ContentText(c)[0] < 0x80
  {
  }

  /** Content is validly encoded exactly when its words are. */
  lemma {:induction false} ContentValid(c: Content)
    requires ContentOk(c)
    ensures Utf8.Valid(ContentText(c)) <==> Legible(c)
    decreases c
  {
    hide StringText, CharsOk, Utf8.Valid, Wordy;
    if c == Done {
      Utf8.AsciiValid([]);
    } else {
      ContentValid(c.rest);
      var more := ContentText(c.rest);
      match c
      case Mark(b, _) =>
        MarkValid(b);
        Utf8.ValidBehind([b], more);
      case Token(text, _) =>
        TokenEnds(c.rest);
        Utf8.ValidParts(text, more);
      case Text(chars, _) =>
        StringValid(chars);
        Utf8.ValidBehind(StringText(chars), more);
      case Nest(braces, inside, _) =>
        ContentValid(inside);
        MarkValid(Open(braces));
        MarkValid(Close(braces));
        Utf8.ValidBehind([Open(braces)], ContentText(inside) + ([Close(braces)] + more));
        Utf8.ValidParts(ContentText(inside), [Close(braces)] + more);
        Utf8.ValidBehind([Close(braces)], more);
    }
  }

  /** An object passes if and only if its words are validly encoded and its depth, its fields,
      its strings and its words are within the limits. */
  lemma ObjectPasses(inside: Content, outer: nat)
    requires ContentOk(inside) && outer < MAX_DEPTH
    ensures Passes(ObjectText(inside), outer) <==>
      Legible(inside) && Fits(inside, MAX_DEPTH - outer - 1) && Colons(inside) <= MAX_FIELDS
  {
    hide Checked, ContentText, ContentOk, Fits, Colons, Utf8.Valid;
    var text := ContentText(inside);
    ObjectChecked(inside, outer);
    ContentValid(inside);
    MarkValid(Open(true));
    MarkValid(Close(true));
    Utf8.ValidBehind([Open(true)], text + [Close(true)]);
    Utf8.ValidParts(text, [Close(true)]);
  }
}
