/** JSON values are content in the sense of the framer: any object of the text grammar is
    framed and measured by the export reader as its grammar says. */
module SpendRecords {
  import opened Common
  import opened JsonText
  import opened JsonLanguage
  import opened SpendCsv
  import opened SpendJson
  import opened SpendPreflight
  import Utf8

  function Marks(space: Bytes, rest: Content): Content {
    if space == [] then rest else Mark(space[0], Marks(space[1..], rest))
  }

  function ContentOf(v: Json, rest: Content): Content {
    match v
    case Str(chars) => Text(chars, rest)
    case Num(number) => Token(NumberText(number), rest)
    case Word(literal) => Token(literal.Text(), rest)
    case Empty(braces, pad) => Nest(braces, Marks(pad, Done), rest)
    case Group(braces, pad, items) => Nest(braces, Marks(pad, ItemsContent(items)), rest)
  }

  function SpacedContent(s: Spaced, rest: Content): Content {
    Marks(s.lead, ContentOf(s.value, rest))
  }

  function ItemsContent(items: Items): Content {
    match items
    case Last(m) => MemberContent(m, Done)
    case More(m, more) => MemberContent(m, Mark(COMMA, ItemsContent(more)))
  }

  function MemberContent(m: Member, rest: Content): Content {
    var value := SpacedContent(m.value, Marks(m.trail, rest));
    if m.key.None? then value else KeyContent(m.key.value, value)
  }

  function KeyContent(key: Key, rest: Content): Content {
    Marks(key.lead, Text(key.chars, Marks(key.after, Mark(COLON, rest))))
  }

  lemma {:induction false} MarksText(space: Bytes, rest: Content)
    requires Space.All(space) && ContentOk(rest)
    ensures ContentOk(Marks(space, rest)) && ContentText(Marks(space, rest)) == space + ContentText(rest)
    ensures Marks(space, rest).Token? ==> rest.Token?
  {
    if space == [] {
      NothingAdded(ContentText(rest));
    } else {
      MarksText(space[1..], rest);
      Uncons(space);
      Append3([space[0]], space[1..], ContentText(rest));
    }
  }

  predicate AllWordy(t: Bytes) { forall i :: 0 <= i < |t| ==> Wordy(t[i]) && t[i] < 0x80 }

  lemma JoinWordy(a: Bytes, b: Bytes)
    requires AllWordy(a) && AllWordy(b)
    ensures AllWordy(a + b)
  {
  }

  lemma DigitsWordy(t: Bytes)
    requires Digit.All(t)
    ensures AllWordy(t)
  {
  }

  lemma ByteWordy(b: byte)
    requires b == MINUS || b == PLUS || b == POINT || IsMark(b)
    ensures AllWordy([b]) && AllWordy([])
  {
  }

  lemma ExponentWordy(e: Option<Exponent>)
    requires e.Some? ==> ExponentOk(e.value)
    ensures AllWordy(ExponentText(e))
  {
    if e.Some? {
      DigitsWordy(e.value.digits);
      ByteWordy(e.value.mark);
      var sign := SignText(e.value.sign);
      if e.value.sign.Some? {
        ByteWordy(e.value.sign.value);
      }
      hide Wordy, AllWordy;
      JoinWordy(sign, e.value.digits);
      JoinWordy([e.value.mark], sign + e.value.digits);
    } else {
      ByteWordy(MINUS);
    }
  }

  lemma FractionWordy(f: Option<Bytes>)
    requires f.Some? ==> DigitsOk(f.value)
    ensures AllWordy(FractionText(f))
  {
    ByteWordy(POINT);
    if f.Some? {
      DigitsWordy(f.value);
      JoinWordy([POINT], f.value);
    }
  }

  lemma NumberWordy(n: Number)
    requires NumberOk(n)
    ensures NumberText(n) != [] && AllWordy(NumberText(n))
  {
    ByteWordy(MINUS);
    DigitsWordy(n.whole);
    FractionWordy(n.fraction);
    ExponentWordy(n.exponent);
    hide AllWordy, Wordy, FractionText, ExponentText;
    var f, e := FractionText(n.fraction), ExponentText(n.exponent);
    JoinWordy(f, e);
    JoinWordy(n.whole, f + e);
    JoinWordy(MinusText(n.negative), n.whole + (f + e));
  }

  lemma LiteralWordy(w: Literal)
    ensures w.Text() != [] && AllWordy(w.Text())
  {
  }

  lemma Ascii(t: Bytes)
    requires AllWordy(t)
    ensures Utf8.Valid(t)
  {
    Utf8.AsciiValid(t);
  }

  // ----- every value of the text grammar is content, with the same text

  lemma ValueContent(v: Json, rest: Content)
    requires JsonOk(v) && ContentOk(rest) && !rest.Token?
    ensures ContentOk(ContentOf(v, rest))
    ensures ContentText(ContentOf(v, rest)) == ValueText(v, false) + ContentText(rest)
    decreases v
  {
    match v
    case Str(chars) =>
    case Num(number) =>
      NumberWordy(number);
    case Word(literal) =>
      LiteralWordy(literal);
    case Empty(braces, pad) =>
      MarksText(pad, Done);
      AppendNil(pad);
      NestedText(braces, pad, [], ContentText(rest));
    case Group(braces, pad, items) =>
      ItemsOf(items, braces);
      MarksText(pad, ItemsContent(items));
      NestedText(braces, pad, ContentText(ItemsContent(items)), ContentText(rest));
  }

  lemma NestedText(braces: bool, pad: Bytes, items: Bytes, rest: Bytes)
    ensures [Open(braces)] + ((pad + items) + ([Close(braces)] + rest)) == [Open(braces)] + pad + (items + [Close(braces)]) + rest
  {
    Append3(pad, items, [Close(braces)] + rest);
    Append3(items, [Close(braces)], rest);
    Append3([Open(braces)] + pad, items + [Close(braces)], rest);
    Append3([Open(braces)], pad, items + [Close(braces)] + rest);
  }

  lemma SpacedOf(s: Spaced, rest: Content)
    requires SpacedOk(s) && ContentOk(rest) && !rest.Token?
    ensures ContentOk(SpacedContent(s, rest))
    ensures ContentText(SpacedContent(s, rest)) == SpacedText(s, false) + ContentText(rest)
    decreases s
  {
    ValueContent(s.value, rest);
    MarksText(s.lead, ContentOf(s.value, rest));
    Append3(s.lead, ValueText(s.value, false), ContentText(rest));
    hide ValueText, ContentText, ContentOk, JsonOk;
  }

  lemma KeyOf(key: Key, rest: Content)
    requires KeyOk(key) && ContentOk(rest)
    ensures ContentOk(KeyContent(key, rest)) && !KeyContent(key, rest).Token?
    ensures ContentText(KeyContent(key, rest)) == KeyText(key, false) + ContentText(rest)
  {
    var colon := Mark(COLON, rest);
    var after := Marks(key.after, colon);
    MarksText(key.after, colon);
    MarksText(key.lead, Text(key.chars, after));
    KeyParts(key, ContentText(rest));
    hide StringText;
  }

  lemma KeyParts(key: Key, rest: Bytes)
    requires KeyOk(key)
    ensures KeyText(key, false) + rest == key.lead + (StringText(key.chars) + (key.after + ([COLON] + rest)))
  {
    hide StringText;
    var text := StringText(key.chars);
    Append3(key.after, [COLON], rest);
    Append3(text, key.after + [COLON], rest);
    Append3(key.lead, text + (key.after + [COLON]), rest);
  }

  lemma MemberOf(m: Member, braces: bool, rest: Content)
    requires MemberOk(m, braces) && ContentOk(rest) && !rest.Token?
    ensures ContentOk(MemberContent(m, rest))
    ensures ContentText(MemberContent(m, rest)) == MemberText(m, braces, false) + ContentText(rest)
    decreases m
  {
    hide SpacedText, KeyText, KeyContent, SpacedContent;
    var trail := Marks(m.trail, rest);
    MarksText(m.trail, rest);
    SpacedOf(m.value, trail);
    var value, tail := SpacedText(m.value, false), ContentText(rest);
    Append3(value, m.trail, tail);
    if m.key.Some? {
      KeyOf(m.key.value, SpacedContent(m.value, trail));
      Append3(KeyText(m.key.value, false), value + m.trail, tail);
    } else {
      NothingAdded(value + m.trail);
    }
  }

  lemma ItemsOf(items: Items, braces: bool)
    requires ItemsOk(items, braces)
    ensures ContentOk(ItemsContent(items))
    ensures ItemsText(items, braces, false) == ContentText(ItemsContent(items)) + [Close(braces)]
    decreases items
  {
    hide MemberText, MemberContent;
    match items
    case Last(m) =>
      MemberOf(m, braces, Done);
      AppendNil(MemberText(m, braces, false));
    case More(m, more) =>
      ItemsOf(more, braces);
      MemberOf(m, braces, Mark(COMMA, ItemsContent(more)));
      var text := ContentText(ItemsContent(more));
      Append3([COMMA], text, [Close(braces)]);
      Append3(MemberText(m, braces, false), [COMMA] + text, [Close(braces)]);
  }

  // ----- fields are members

  lemma {:induction false} MarksColons(space: Bytes, rest: Content)
    requires Space.All(space)
    ensures Colons(Marks(space, rest)) == Colons(rest)
  {
    if space != [] {
      MarksColons(space[1..], rest);
    }
  }

  lemma ValueColons(s: Spaced, rest: Content)
    requires SpacedOk(s)
    ensures Colons(SpacedContent(s, rest)) == Colons(rest)
  {
    hide SpacedOk, ContentOf, Colons, Marks;
    SpacedLead(s);
    MarksColons(s.lead, ContentOf(s.value, rest));
    NoColons(s.value, rest);
  }

  /** Only separators are counted, and only outside the value's own brackets. */
  lemma NoColons(v: Json, rest: Content)
    ensures Colons(ContentOf(v, rest)) == Colons(rest)
  {
    hide ItemsContent, Marks, NumberText, Literal.Text;
    match v
    case Str(chars) =>
    case Num(number) =>
    case Word(literal) =>
    case Empty(braces, pad) =>
    case Group(braces, pad, items) =>
  }

  lemma SpacedLead(s: Spaced)
    requires SpacedOk(s)
    ensures Space.All(s.lead)
  {
  }

  lemma MemberColons(m: Member, braces: bool, rest: Content)
    requires MemberOk(m, braces)
    ensures Colons(MemberContent(m, rest)) == (if braces then 1 else 0) + Colons(rest)
  {
    hide SpacedContent, SpacedOk;
    var value := SpacedContent(m.value, Marks(m.trail, rest));
    ValueColons(m.value, Marks(m.trail, rest));
    MarksColons(m.trail, rest);
    if m.key.Some? {
      var key := m.key.value;
      MarksColons(key.after, Mark(COLON, value));
      MarksColons(key.lead, Text(key.chars, Marks(key.after, Mark(COLON, value))));
    }
  }

  /** What is counted inside an object's braces is the number of its members; an array's
      elements are not counted. */
  lemma {:induction false} FieldsCounted(items: Items, braces: bool)
    requires ItemsOk(items, braces)
    ensures Colons(ItemsContent(items)) == if braces then Length(items) else 0
    decreases items
  {
    hide MemberOk, MemberContent;
    match items
    case Last(m) =>
      MemberColons(m, braces, Done);
    case More(m, more) =>
      FieldsCounted(more, braces);
      MemberColons(m, braces, Mark(COMMA, ItemsContent(more)));
  }

  // ----- the limits in terms of the grammar

  /** How deep a value's brackets are nested. */
  function Nesting(v: Json): nat
    decreases v
  {
    match v
    case Empty(_, _) => 1
    case Group(_, _, items) => 1 + ItemsNesting(items)
    case _ => 0
  }

  function ItemsNesting(items: Items): nat
    decreases items
  {
    Max(Nesting(items.member.value.value), if items.Last? then 0 else ItemsNesting(items.rest))
  }

  /** Every string and key stands for some text, it and every number is small enough, brackets nest at most `levels` deep, and
      no object has too many members; arrays may have any number of elements. */
  predicate Measured(v: Json, levels: nat)
    requires JsonOk(v)
    decreases v
  {
    match v
    case Str(chars) => Small(chars)
    case Num(number) => |NumberText(number)| <= MAX_FIELD_BYTES
    case Word(_) => true
    case Empty(_, _) => levels > 0
    case Group(braces, _, items) =>
      levels > 0 && (braces ==> Length(items) <= MAX_FIELDS) && ItemsMeasured(items, braces, levels - 1)
  }

  predicate ItemsMeasured(items: Items, braces: bool, levels: nat)
    requires ItemsOk(items, braces)
    decreases items
  {
    MemberMeasured(items.member, braces, levels) && (items.More? ==> ItemsMeasured(items.rest, braces, levels))
  }

  predicate MemberMeasured(m: Member, braces: bool, levels: nat)
    requires MemberOk(m, braces)
    decreases m
  {
    (braces ==> Small(m.key.value.chars)) && SpacedMeasured(m.value, levels)
  }

  predicate SpacedMeasured(s: Spaced, levels: nat)
    requires SpacedOk(s)
    decreases s
  {
    Measured(s.value, levels)
  }

  lemma {:induction false} MarksFit(space: Bytes, rest: Content, levels: nat)
    requires Space.All(space) && ContentOk(rest)
    ensures ContentOk(Marks(space, rest)) && (Fits(Marks(space, rest), levels) <==> Fits(rest, levels))
    ensures Height(Marks(space, rest)) == Height(rest) && (Legible(Marks(space, rest)) <==> Legible(rest))
  {
    if space != [] {
      MarksFit(space[1..], rest, levels);
    }
  }

  lemma ValueFits(v: Json, rest: Content, levels: nat)
    requires JsonOk(v) && ContentOk(rest) && !rest.Token?
    ensures ContentOk(ContentOf(v, rest))
    ensures Fits(ContentOf(v, rest), levels) <==> Measured(v, levels) && Fits(rest, levels)
    ensures Height(ContentOf(v, rest)) == Max(Nesting(v), Height(rest)) && (Legible(ContentOf(v, rest)) <==> Legible(rest))
    decreases v
  {
    ValueContent(v, rest);
    match v
    case Str(chars) =>
    case Num(number) =>
      NumberWordy(number);
      Ascii(NumberText(number));
    case Word(literal) =>
      LiteralWordy(literal);
      Ascii(literal.Text());
    case Empty(braces, pad) =>
      MarksFit(pad, Done, if levels > 0 then levels - 1 else 0);
      MarksColons(pad, Done);
    case Group(braces, pad, items) =>
      GroupFits(braces, pad, items, levels);
  }

  lemma GroupFits(braces: bool, pad: Bytes, items: Items, levels: nat)
    requires Space.All(pad) && ItemsOk(items, braces)
    ensures var inside := Marks(pad, ItemsContent(items));
      && ContentOk(inside) && Height(inside) == ItemsNesting(items) && Legible(inside)
      && Colons(inside) == (if braces then Length(items) else 0)
      && (levels > 0 ==> (Fits(inside, levels - 1) <==> ItemsMeasured(items, braces, levels - 1)))
    decreases items, 1
  {
    hide ItemsContent, ItemsMeasured, ItemsNesting, ItemsOk;
    var next := if levels > 0 then levels - 1 else 0;
    ItemsFit(items, braces, next);
    MarksFit(pad, ItemsContent(items), next);
    MarksColons(pad, ItemsContent(items));
    FieldsCounted(items, braces);
  }

  lemma MemberFits(m: Member, braces: bool, rest: Content, levels: nat)
    requires MemberOk(m, braces) && ContentOk(rest) && !rest.Token?
    ensures ContentOk(MemberContent(m, rest))
    ensures Fits(MemberContent(m, rest), levels) <==> MemberMeasured(m, braces, levels) && Fits(rest, levels)
    ensures Height(MemberContent(m, rest)) == Max(Nesting(m.value.value), Height(rest))
    ensures Legible(MemberContent(m, rest)) <==> Legible(rest)
    decreases m
  {
    hide ContentOf, Measured, Nesting, Small, JsonOk;
    assert SpacedOk(m.value);
    var trail := Marks(m.trail, rest);
    MarksText(m.trail, rest);
    MarksFit(m.trail, rest, levels);
    ValueFits(m.value.value, trail, levels);
    var value := ContentOf(m.value.value, trail);
    MarksFit(m.value.lead, value, levels);
    if m.key.Some? {
      KeyFits(m.key.value, SpacedContent(m.value, trail), levels);
    }
  }

  lemma KeyFits(key: Key, rest: Content, levels: nat)
    requires KeyOk(key) && ContentOk(rest)
    ensures ContentOk(KeyContent(key, rest)) && (Fits(KeyContent(key, rest), levels) <==> Small(key.chars) && Fits(rest, levels))
    ensures Height(KeyContent(key, rest)) == Height(rest) && (Legible(KeyContent(key, rest)) <==> Legible(rest))
  {
    var after := Marks(key.after, Mark(COLON, rest));
    MarksFit(key.after, Mark(COLON, rest), levels);
    MarksFit(key.lead, Text(key.chars, after), levels);
  }

  lemma {:induction false} ItemsFit(items: Items, braces: bool, levels: nat)
    requires ItemsOk(items, braces)
    ensures ContentOk(ItemsContent(items)) && (Fits(ItemsContent(items), levels) <==> ItemsMeasured(items, braces, levels))
    ensures Height(ItemsContent(items)) == ItemsNesting(items) && Legible(ItemsContent(items))
    decreases items, 0
  {
    hide MemberContent, MemberOk, MemberMeasured, Nesting;
    match items
    case Last(m) =>
      MemberFits(m, braces, Done, levels);
    case More(m, more) =>
      ItemsFit(more, braces, levels);
      MemberFits(m, braces, Mark(COMMA, ItemsContent(more)), levels);
  }

  // ----- objects

  predicate IsObject(v: Json) { (v.Empty? || v.Group?) && v.braces }

  /** What stands between an object's braces. */
  function Interior(v: Json): Content
    requires IsObject(v)
  {
    if v.Empty? then Marks(v.pad, Done) else Marks(v.pad, ItemsContent(v.items))
  }

  /** An object of the text grammar is content in braces, and the limits mean the same. */
  lemma ObjectContent(v: Json, levels: nat)
    requires IsObject(v) && JsonOk(v) && levels > 0
    ensures ContentOk(Interior(v)) && ObjectText(Interior(v)) == ValueText(v, false)
    ensures Height(Interior(v)) + 1 == Nesting(v) && Legible(Interior(v))
    ensures Fits(Interior(v), levels - 1) && Colons(Interior(v)) <= MAX_FIELDS <==> Measured(v, levels)
  {
    ValueContent(v, Done);
    if v.Group? {
      GroupFits(true, v.pad, v.items, levels);
      hide ItemsContent, ItemsOk, ItemsMeasured, ItemsNesting;
    } else {
      MarksFit(v.pad, Done, levels - 1);
      MarksColons(v.pad, Done);
    }
    AppendNil(ValueText(v, false));
    AppendNil([Close(true)]);
    hide ValueText;
  }

  /** Any JSON object, of any size, is framed at its matching brace, whatever follows it, unless
      it is too large or nested too deeply, even if it has a string that stands for no text;
      and it is accepted exactly when all strings stand for text and it is within the limits,
      one of which is the number of members of each object in it. */
  lemma ObjectHandled(v: Json, rest: Bytes, outer: nat)
    requires IsObject(v) && JsonOk(v) && outer < MAX_DEPTH
    ensures var text := ValueText(v, false);
      && ObjectLength(text + rest) == (if Nesting(v) < MAX_DEPTH && |text| <= MAX_ROW_BYTES then Some(|text|) else None)
      && (Passes(text, outer) <==> Measured(v, MAX_DEPTH - outer))
  {
    hide Interior, ValueText, ObjectLength, Passes, Fits, ContentOk, Measured, Nesting, JsonOk, ContentText, Legible;
    ObjectContent(v, MAX_DEPTH - outer);
    ObjectExact(Interior(v), rest);
    ObjectPasses(Interior(v), outer);
  }
}
