/** What is kept of a value, what discarding it changes, and the level field, which
    is read from a bounded lookahead. */
module JsonFields {
  import opened Common
  import opened JsonText
  import opened JsonScan
  import opened JsonLanguage
  import opened JsonReads
  import opened JsonLexer

  // ----- kept bytes are the same value without insignificant whitespace

  function Strip(v: Json): Json {
    match v
    case Empty(braces, _) => Empty(braces, [])
    case Group(braces, _, items) => Group(braces, [], StripItems(items))
    case _ => v
  }

  function StripSpaced(s: Spaced): Spaced { Spaced([], Strip(s.value)) }

  function StripItems(items: Items): Items {
    match items
    case Last(m) => Last(StripMember(m))
    case More(m, rest) => More(StripMember(m), StripItems(rest))
  }

  function StripMember(m: Member): Member {
    Member(if m.key.None? then None else Some(Key([], m.key.value.chars, [])), StripSpaced(m.value), [])
  }

  lemma TightIsStripped(s: Spaced)
    requires SpacedOk(s)
    ensures SpacedOk(StripSpaced(s)) && SpacedText(StripSpaced(s), false) == SpacedText(s, true)
    decreases s
  {
    TightValue(s.value);
    hide JsonOk, ValueText, Strip;
  }

  lemma TightValue(v: Json)
    requires JsonOk(v)
    ensures JsonOk(Strip(v)) && ValueText(Strip(v), false) == ValueText(v, true)
    decreases v
  {
    if v.Group? {
      TightItems(v.items, v.braces);
      hide ItemsOk, ItemsText;
    }
  }

  lemma TightItems(items: Items, braces: bool)
    requires ItemsOk(items, braces)
    ensures ItemsOk(StripItems(items), braces) && Length(StripItems(items)) == Length(items)
    ensures MemberLead(StripItems(items).member) == []
    ensures ItemsText(StripItems(items), braces, false) == ItemsText(items, braces, true)
    decreases items
  {
    TightMember(items.member, braces);
    if items.More? {
      TightItems(items.rest, braces);
    }
    hide MemberOk, MemberText;
  }

  lemma TightMember(m: Member, braces: bool)
    requires MemberOk(m, braces)
    ensures MemberOk(StripMember(m), braces) && MemberLead(StripMember(m)) == []
    ensures MemberText(StripMember(m), braces, false) == MemberText(m, braces, true)
    decreases m
  {
    TightIsStripped(m.value);
    hide SpacedOk, SpacedText;
  }

  /** Whitespace has no part in the limits. */
  lemma StripWithin(v: Json, depth: nat)
    ensures Within(Strip(v), depth) <==> Within(v, depth)
    decreases v
  {
    if v.Group? {
      StripItemsWithin(v.items, depth + 1);
    }
  }

  lemma StripFirst(items: Items)
    ensures StripItems(items).member.value.value == Strip(items.member.value.value)
    ensures items.More? <==> StripItems(items).More?
    ensures items.More? ==> StripItems(items).rest == StripItems(items.rest)
  {
    assert StripMember(items.member).value == StripSpaced(items.member.value);
  }

  lemma StripItemsWithin(items: Items, depth: nat)
    ensures Length(StripItems(items)) == Length(items) && (ItemsWithin(StripItems(items), depth) <==> ItemsWithin(items, depth))
    decreases items
  {
    var v := items.member.value.value;
    StripWithin(v, depth);
    StripFirst(items);
    hide Within, Strip, StripMember;
    if items.More? {
      StripItemsWithin(items.rest, depth);
    }
  }

  /** A value read on its own: what is kept of it reads back as the same value, with
      no whitespace and nothing left over. */
  lemma KeptReadsBack(input: Bytes, depth: nat)
    requires depth <= MAX_DEPTH + 1 && ReadSpaced(input, depth).Some?
    ensures var v, kept := ScanSpaced(input, depth).value.node, ReadSpaced(input, depth).value.kept;
      ScanSpaced(kept, depth) == Some(Parsed(StripSpaced(v), []))
  {
    var v, kept := ScanSpaced(input, depth).value.node, ReadSpaced(input, depth).value.kept;
    TightIsStripped(v);
    StripWithin(v.value, depth);
    AppendNil(kept);
    SpacedComplete(StripSpaced(v), depth, []);
  }

  /** Keeping or discarding a value makes no difference to what is consumed, nor,
      while the field limit holds, to what is accepted. */
  lemma KeepDiscardAgree(s: State, field: Bytes, r: Option<Read>,
                         kept: bool, s1: State, field': Option<Bytes>, discarded: bool, s2: State, none': Option<Bytes>)
    requires Performs(s, Some(field), r, kept, s1, field') && Performs(s, None, r, discarded, s2, none')
    ensures kept ==> discarded && s1 == s2 && field' == Some(field + r.value.kept)
    ensures discarded ==> (kept <==> r.value.kept == [] || |field| + |r.value.kept| <= MAX_FIELD_BYTES)
  {
  }

  // ----- the level field

  datatype Level = Default | Debug | Warning | Error | Unknown

  /** The scalar a character of a string stands for; a lone surrogate is its code unit. */
  function Scalar(c: Char): int
    requires CharOk(c)
  {
    match c
    case Plain(b) => b as int
    case Wide(cp) => cp
    case Escape(b) =>
      if b == 0x62 then 8 else if b == 0x66 then 12 else if b == 0x6e then 10 else if b == 0x72 then 13
      else if b == 0x74 then 9 else b as int
    case Unit(hex) => UnitValue(hex)
    case Pair(high, low) => 0x10000 + (UnitValue(high) - 0xd800) * 0x400 + (UnitValue(low) - 0xdc00)
    case Lone(hex) => UnitValue(hex)
  }

  function Scalars(chars: seq<Char>): (s: seq<int>)
    requires CharsOk(chars)
    ensures |s| == |chars|
  {
    if chars == [] then [] else [Scalar(chars[0])] + Scalars(chars[1..])
  }

  function LevelOf(text: seq<int>): Level {
    if text == [0x44, 0x45, 0x46, 0x41, 0x55, 0x4c, 0x54] then Default
    else if text == [0x44, 0x45, 0x42, 0x55, 0x47] then Debug
    else if text == [0x57, 0x41, 0x52, 0x4e, 0x49, 0x4e, 0x47] then Warning
    else if text == [0x45, 0x52, 0x52, 0x4f, 0x52] then Error
    else Unknown
  }

  const LOOKAHEAD: nat := 44

  function Lookahead(s: Bytes): Bytes {
    if |s| <= LOOKAHEAD then s else s[..LOOKAHEAD]
  }

  /** The level the whole value stands for. */
  function LevelOfValue(v: Json): Level
    requires v.Str? ==> CharsOk(v.chars)
  {
    if v.Str? then LevelOf(Scalars(v.chars)) else Unknown
  }

  /** ASCII text is spelled with at most six bytes a character. */
  lemma {:induction false} AsciiSpelling(chars: seq<Char>)
    requires CharsOk(chars) && forall i :: 0 <= i < |chars| ==> Scalars(chars)[i] < 0x80
    ensures |CharsText(chars)| <= 6 * |chars|
  {
    if chars != [] {
      assert Scalar(chars[0]) == Scalars(chars)[0] < 0x80;
      forall i | 0 <= i < |chars| - 1 ensures Scalars(chars[1..])[i] < 0x80 {
        assert Scalars(chars)[i + 1] < 0x80;
      }
      AsciiSpelling(chars[1..]);
      ShortSpelling(chars[0]);
      hide CharText, CharOk, Scalar;
    }
  }

  lemma ShortSpelling(c: Char)
    requires CharOk(c) && Scalar(c) < 0x80
    ensures |CharText(c)| <= 6
  {
  }

  lemma KnownIsShort(text: seq<int>)
    requires LevelOf(text) != Unknown
    ensures |text| <= 7 && forall i :: 0 <= i < |text| ==> text[i] < 0x80
  {
  }

  /** Forty-four bytes decide the level: a string they cut off is not a known one. */
  lemma LookaheadEnough(s: Bytes)
    requires ScanString(s).Some?
    ensures var p, q := ScanString(s).value, ScanString(Lookahead(s));
      LevelOf(Scalars(p.node)) == if q.Some? then LevelOf(Scalars(q.value.node)) else Unknown
  {
    var p, window := ScanString(s).value, Lookahead(s);
    var q := ScanString(window);
    StringSound(s);
    hide ScanString, CharsText;
    if q.Some? {
      StringSound(window);
      var more := s[|window|..];
      Cut(s, |window|);
      Regroup(StringText(q.value.node), q.value.rest, more);
      StringComplete(q.value.node, q.value.rest + more);
    } else if LevelOf(Scalars(p.node)) != Unknown {
      KnownIsShort(Scalars(p.node));
      AsciiSpelling(p.node);
      var text := StringText(p.node);
      assert window == text + window[|text|..];
      StringComplete(p.node, window[|text|..]);
    }
  }

  lemma StringValue(s: Bytes, depth: nat)
    requires depth <= MAX_DEPTH && Peek(s) == QUOTE
    ensures var v := ScanValue(s, depth);
      v == if ScanString(s).None? then None else Some(Parsed(Str(ScanString(s).value.node), ScanString(s).value.rest))
  {
  }

  lemma OtherValue(s: Bytes, depth: nat)
    requires depth <= MAX_DEPTH && Peek(s) != QUOTE && ScanValue(s, depth).Some?
    ensures !ScanValue(s, depth).value.node.Str?
  {
    hide ScanNumber, ScanItems, ScanString;
  }

  /** Reads a value as a level, decoding only the lookahead; the value itself is
      scanned and discarded. */
  method ReadLevel(l: Lexer) returns (ok: bool, level: Level)
    modifies l`rest, l`bytes
    ensures Performs(old(l.View()), None, ReadSpaced(old(l.rest), 1), ok, l.View(), None)
    ensures ok ==> level == LevelOfValue(ScanSpaced(old(l.rest), 1).value.node.value)
  {
    hide Performs, Under, ReadSpace, ReadSpaced, ReadValue;
    ghost var s0, whole := l.View(), ReadSpaced(l.rest, 1);
    SpacedSteps(l.rest, 1);
    ghost var lead := ReadSpace(l.rest);
    ok := l.Space();
    level := Unknown;
    FirstStep(s0, None, whole, lead, ok, l.View(), None, ReadValue(RestOf(lead), 1));
    if !ok {
      return;
    }
    ghost var s := l.View();
    if l.PeekByte() == QUOTE {
      var decoded := ScanString(Lookahead(l.rest));
      if decoded.Some? {
        level := LevelOf(Scalars(decoded.value.node));
      }
    }
    var out;
    NoLead(s0.rest, 1);
    ok, out := l.Value(None, 1);
    LevelFinish(s0, whole, lead, s, ok, l.View(), out);
    if ok {
      LevelRead(s0.rest, s.rest, level);
    }
  }

  lemma NoLead(s: Bytes, depth: nat)
    requires depth <= MAX_DEPTH
    ensures var t := RestOf(ReadSpace(s)); ReadSpace(t) == Some(Read([], [], t)) && ReadSpaced(t, depth) == ReadValue(t, depth)
  {
    var t := s[|Span(Space, s)|..];
    SpacedSteps(t, depth);
    assert Span(Space, t) == [];
    assert t[0..] == t;
    BindNothing(t, ReadValue(t, depth));
    hide ReadValue, ReadSpaced, Span;
  }

  lemma LevelFinish(s0: State, whole: Option<Read>, lead: Option<Read>, s: State, ok: bool, s': State,
      out: Option<Bytes>)
    requires Under(s0, None, whole, lead, s, None, ReadValue(s.rest, 1)) && s.rest == RestOf(lead)
    requires ReadSpaced(s.rest, 1) == ReadValue(s.rest, 1)
    requires Performs(s, None, ReadSpaced(s.rest, 1), ok, s', out)
    ensures Performs(s0, None, whole, ok, s', None) && (ok ==> whole.Some?)
  {
    Finish(s0, None, whole, lead, s, None, ReadValue(s.rest, 1), ok, s', out);
  }

  lemma LevelRead(s: Bytes, t: Bytes, level: Level)
    requires ReadSpaced(s, 1).Some? && t == RestOf(ReadSpace(s))
    requires level ==
      if Peek(t) == QUOTE && ScanString(Lookahead(t)).Some? then LevelOf(Scalars(ScanString(Lookahead(t)).value.node)) else Unknown
    ensures level == LevelOfValue(ScanSpaced(s, 1).value.node.value)
  {
    hide ScanString, Scalars, LevelOf, Lookahead;
    if Peek(t) == QUOTE {
      StringValue(t, 1);
      LookaheadEnough(t);
    } else {
      OtherValue(t, 1);
    }
  }
}
