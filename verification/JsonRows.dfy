/** Rows of a JSON export: an object is scanned once, approved fields are kept, and the
    rest of it leaves no trace. */
module JsonRows {
  import opened Common
  import opened JsonText
  import opened JsonScan
  import opened JsonLanguage
  import opened JsonReads
  import opened JsonLexer
  import opened JsonFields
  import opened CsvTable

  /** A decoded name. */
  type Name = seq<int>

  function Named(s: string): Name {
    seq(|s|, i requires 0 <= i < |s| => s[i] as int)
  }

  // ----- what a row says

  datatype UsageKey = Input | Output | CacheRead | CacheWrite | Reasoning | Sum

  /** A usage object's known values, how many others it has, and whether it was no object. */
  datatype Usage = Usage(values: map<UsageKey, Bytes>, unknown: nat, bad: bool)

  datatype Row = Row(fields: map<Name, Bytes>, level: Option<Level>, usage: Option<Usage>)

  const NO_USAGE := Usage(map[], 0, false)
  const NO_ROW := Row(map[], None, None)

  function UsageKeyOf(name: Name): Option<UsageKey> {
    if name == Named("input") then Some(Input)
    else if name == Named("output") then Some(Output)
    else if name == Named("input_cached_tokens") then Some(CacheRead)
    else if name == Named("input_cache_creation") then Some(CacheWrite)
    else if name == Named("output_reasoning_tokens") then Some(Reasoning)
    else if name == Named("total") then Some(Sum)
    else None
  }

  predicate Approves(name: Name) {
    exists k :: 0 <= k < |ROW_KEYS| && Named(ROW_KEYS[k]) == name
  }

  /** A number or null as it is spelled; anything else counts as "false". */
  function UsageText(v: Json, depth: nat): Bytes
    requires JsonOk(v)
  {
    if v.Num? || v == Json.Word(Null) then ValueText(v, true) else False.Text()
  }

  /** Adds one usage value; None if it is too long. */
  function UsagePut(name: Name, v: Spaced, u: Usage): Option<Usage> {
    if !SpacedOk(v) then None
    else
      var key := UsageKeyOf(name);
      if key.None? then Some(u.(unknown := u.unknown + 1))
      else
        var text := UsageText(v.value, 2);
        if |text| > MAX_FIELD_BYTES then None else Some(u.(values := u.values[key.value := text]))
  }

  /** What a usage value says, whatever it is. */
  function UsageOf(v: Json): Option<Usage> {
    if (v.Empty? || v.Group?) && v.braces then FoldObject(UsagePut, v, NO_USAGE)
    else Some(NO_USAGE.(bad := v != Json.Word(Null)))
  }

  /** Adds one member of a row; None if it cannot be kept. */
  function RowPut(name: Name, v: Spaced, p: Row): Option<Row> {
    if !SpacedOk(v) then None
    else if name == Named("level") then Some(p.(level := Some(LevelIn(v.value))))
    else if name == Named("usage_details") then
      var u := UsageOf(v.value);
      if u.None? then None else Some(p.(usage := u))
    else if Approves(name) then
      var text := SpacedText(v, true);
      if |text| > MAX_FIELD_BYTES then None else Some(p.(fields := p.fields[name := text]))
    else Some(p)
  }

  function LevelIn(v: Json): Level
    requires JsonOk(v)
  {
    LevelOfValue(v)
  }

  // ----- objects, member by member

  function NameOf(key: Key): Name {
    if CharsOk(key.chars) then Scalars(key.chars) else []
  }

  function KeySize(key: Key): nat {
    if CharsOk(key.chars) then |StringText(key.chars)| else 0
  }

  /** One member more; names must fit and must not repeat. */
  function FoldOne<P>(put: (Name, Spaced, P) -> Option<P>, m: Member, seen: set<Name>, p: P): Option<P> {
    if m.key.None? || KeySize(m.key.value) > MAX_FIELD_BYTES || NameOf(m.key.value) in seen then None
    else put(NameOf(m.key.value), m.value, p)
  }

  function Fold<P>(put: (Name, Spaced, P) -> Option<P>, items: Items, seen: set<Name>, p: P): Option<P> {
    var q := FoldOne(put, items.member, seen, p);
    if q.None? || items.Last? then q else Fold(put, items.rest, seen + {NameOf(items.member.key.value)}, q.value)
  }

  function FoldObject<P>(put: (Name, Spaced, P) -> Option<P>, v: Json, p: P): Option<P> {
    if v.Group? then Fold(put, v.items, {}, p) else Some(p)
  }

  /** What the members at the head of the input say. */
  function FoldAt<P>(put: (Name, Spaced, P) -> Option<P>, s: Bytes, depth: nat, room: nat, seen: set<Name>, p: P): Option<P>
    requires depth <= MAX_DEPTH && room < MAX_FIELDS
  {
    var items := ScanItems(true, s, depth, room);
    if items.None? then None else Fold(put, items.value.node, seen, p)
  }

  function FoldMember<P>(put: (Name, Spaced, P) -> Option<P>, s: Bytes, depth: nat, seen: set<Name>, p: P): Option<P>
    requires depth <= MAX_DEPTH
  {
    var m := ScanMember(true, s, depth);
    if m.None? then None else FoldOne(put, m.value.node, seen, p)
  }

  lemma FoldSteps<P>(put: (Name, Spaced, P) -> Option<P>, s: Bytes, depth: nat, room: nat, seen: set<Name>, p: P)
    requires depth <= MAX_DEPTH && room < MAX_FIELDS
    ensures FoldAt(put, s, depth, room, seen, p) ==
      var m, q := ScanMember(true, s, depth), FoldMember(put, s, depth, seen, p);
      if m.None? || q.None? then None
      else if Peek(m.value.rest) == Close(true) then q
      else if Peek(m.value.rest) != COMMA || room == 0 then None
      else FoldAt(put, m.value.rest[1..], depth, room - 1, seen + {NameOf(m.value.node.key.value)}, q.value)
  {
    hide ScanMember, FoldOne;
  }

  lemma MemberParts(s: Bytes, depth: nat)
    requires depth <= MAX_DEPTH && ScanMember(true, s, depth).Some?
    ensures ScanKey(s).Some? && ScanSpaced(ScanKey(s).value.rest, depth + 1).Some?
    ensures var m := ScanMember(true, s, depth).value.node;
      m.key == Some(ScanKey(s).value.node) && m.value == ScanSpaced(ScanKey(s).value.rest, depth + 1).value.node
  {
    hide ScanKey, ScanSpaced;
  }

  lemma ObjectParts(s: Bytes, depth: nat)
    requires depth <= MAX_DEPTH && Peek(s) == Open(true)
    ensures var t, v := RestOf(ReadSpace(s[1..])), ScanValue(s, depth);
      if Peek(t) == Close(true) then v.Some? && v.value.node.Empty? && v.value.node.braces
      else
        var items := ScanItems(true, t, depth, MAX_FIELDS - 1);
        (v.Some? <==> items.Some?) && (v.Some? ==> v.value.node.Group? && v.value.node.braces && v.value.node.items == items.value.node)
  {
    hide ScanItems, Span;
  }

  // ----- steps that may also refuse what the scanner accepts

  /** Performs `r` with nothing kept exactly when the limits allow it and it is good. */
  predicate Completes(s: State, r: Option<Read>, good: bool, ok: bool, s': State) {
    if ok then good && Performs(s, None, r, true, s', None) else !good || Performs(s, None, r, false, s', None)
  }

  /** Keeping a value on its own refuses only what is too long. */
  lemma KeptAlone(s: State, r: Option<Read>, ok: bool, s': State, out: Option<Bytes>)
    requires Performs(s, Some([]), r, ok, s', out)
    ensures Completes(s, r, r.Some? && |r.value.kept| <= MAX_FIELD_BYTES, ok, s')
    ensures ok ==> out == Some(r.value.kept)
  {
    if r.Some? {
      NothingAdded(r.value.kept);
    }
  }

  lemma DiscardedAlone(s: State, r: Option<Read>, ok: bool, s': State, out: Option<Bytes>)
    requires Performs(s, None, r, ok, s', out)
    ensures Completes(s, r, true, ok, s')
  {
  }

  /** The last step decides, or the one before it. */
  lemma CompletesLast(s0: State, whole: Option<Read>, done: Option<Read>, s: State, r: Option<Read>, good: bool,
      ok: bool, s': State)
    requires Under(s0, None, whole, done, s, None, r) && Completes(s, r, good, ok, s')
    ensures Completes(s0, whole, good, ok, s')
  {
    if ok {
      Finish(s0, None, whole, done, s, None, r, true, s', None);
    } else if good {
      Finish(s0, None, whole, done, s, None, r, false, s', None);
    }
    hide Performs, Under;
  }

  /** A step in the middle: either what comes next can be performed, or the whole is refused. */
  lemma CompletesNext(s0: State, whole: Option<Read>, done: Option<Read>, s: State, r: Option<Read>, good: bool,
      ok: bool,
      s': State, next: Option<Read>, all: bool)
    requires Under(s0, None, whole, done, s, None, Bind(r, next)) && Completes(s, r, good, ok, s') && (all ==> good)
    ensures if ok then Under(s0, None, whole, Bind(done, r), s', None, next) && s'.rest == RestOf(r) else Completes(s0, whole, all, false, s')
  {
    if ok {
      Step(s0, None, whole, done, s, None, r, true, s', None, next);
      Reached(s, None, r, s', None);
    } else if good {
      Step(s0, None, whole, done, s, None, r, false, s', None, next);
    }
    hide Performs, Under;
  }

  // ----- keys

  lemma KeyIs(s: Bytes)
    ensures ScanKey(s).Some? <==> ReadKey(s).Some?
    ensures ScanKey(s).Some? ==>
      var t := RestOf(ReadSpace(s));
      && ScanString(t).Some? && ReadString(t).Some?
      && KeySize(ScanKey(s).value.node) == |ReadString(t).value.kept|
      && NameOf(ScanKey(s).value.node) == Scalars(ScanString(t).value.node)
  {
    hide ScanString, StringText, Span, Scalars;
  }

  /** A kept string reads back as the string it was. */
  lemma StringKept(s: Bytes, raw: Bytes)
    requires ReadString(s).Some? && raw == ReadString(s).value.kept
    ensures ScanString(raw).Some? && ScanString(s).Some? && ScanString(raw).value.node == ScanString(s).value.node
  {
    var chars := ScanString(s).value.node;
    AppendNil(raw);
    StringComplete(chars, []);
    hide ScanString, StringText;
  }

  lemma KeyEnds(s0: State, s: Bytes, ok: bool, s': State)
    requires Completes(s0, ReadKey(s), true, ok, s')
    requires var b := ReadString(RestOf(ReadSpace(s))); b.Some? && |b.value.kept| <= MAX_FIELD_BYTES
    ensures Completes(s0, ReadKey(s), ScanKey(s).Some? && KeySize(ScanKey(s).value.node) <= MAX_FIELD_BYTES, ok, s')
  {
    KeyIs(s);
    hide ReadKey, ReadString, ReadSpace, ScanKey, KeySize;
  }

  /** A member's name and its colon. */
  method ReadName(l: Lexer) returns (ok: bool, name: Name)
    modifies l`rest, l`bytes
    ensures var k := ScanKey(old(l.rest));
      Completes(old(l.View()), ReadKey(old(l.rest)), k.Some? && KeySize(k.value.node) <= MAX_FIELD_BYTES, ok, l.View())
    ensures ok ==> name == NameOf(ScanKey(old(l.rest)).value.node)
  {
    hide Performs, Under, Completes, ReadKey, ReadSpace, ReadString, ReadExpected, ScanKey, ScanString, NameOf, KeySize;
    ghost var s0, whole, k := l.View(), ReadKey(l.rest), ScanKey(l.rest);
    ghost var good := k.Some? && KeySize(k.value.node) <= MAX_FIELD_BYTES;
    KeySteps(l.rest);
    KeyIs(l.rest);
    ghost var a := ReadSpace(l.rest);
    ghost var b := ReadString(RestOf(a));
    ghost var c := ReadSpace(RestOf(b));
    ghost var d := ReadExpected(RestOf(c), COLON);
    name := [];
    Begin(s0, None, whole);
    ghost var done := Some(Read([], [], l.rest));
    ok := l.Space();
    DiscardedAlone(s0, a, ok, l.View(), None);
    CompletesNext(s0, whole, done, s0, a, true, ok, l.View(), Bind(b, Bind(c, d)), good);
    if !ok {
      return;
    }
    done := Bind(done, a);
    ghost var s := l.View();
    var raw;
    ok, raw := l.Quoted(Some([]));
    KeptAlone(s, b, ok, l.View(), raw);
    CompletesNext(s0, whole, done, s, b, b.Some? && |b.value.kept| <= MAX_FIELD_BYTES, ok, l.View(), Bind(c, d), good);
    if !ok {
      return;
    }
    done := Bind(done, b);
    StringKept(s.rest, raw.value);
    name := Scalars(ScanString(raw.value).value.node);
    s := l.View();
    ok := l.Space();
    DiscardedAlone(s, c, ok, l.View(), None);
    CompletesNext(s0, whole, done, s, c, true, ok, l.View(), d, good);
    if !ok {
      return;
    }
    done := Bind(done, c);
    s := l.View();
    var none;
    ok, none := l.Expect(COLON, None);
    DiscardedAlone(s, d, ok, l.View(), none);
    CompletesLast(s0, whole, done, s, d, true, ok, l.View());
    KeyEnds(s0, s0.rest, ok, l.View());
  }

  // ----- values

  lemma SpacedParts(s: Bytes, depth: nat)
    requires depth <= MAX_DEPTH
    ensures var t := RestOf(ReadSpace(s));
      && (ScanSpaced(s, depth).Some? <==> ScanValue(t, depth).Some?)
      && (ScanValue(t, depth).Some? ==>
            var v := ScanSpaced(s, depth).value.node;
            && v.value == ScanValue(t, depth).value.node && ReadSpaced(t, depth).Some?
            && SpacedText(v, true) == ValueText(v.value, true) == ReadSpaced(t, depth).value.kept)
  {
    hide ScanValue, ValueText, Span, JsonOk;
    NoLead(s, depth);
    var t := RestOf(ReadSpace(s));
    if ScanValue(t, depth).Some? {
      NothingAdded(ValueText(ScanValue(t, depth).value.node, true));
    }
  }

  /** The first byte tells numbers, null and objects apart. */
  lemma FirstByte(s: Bytes, depth: nat)
    requires depth <= MAX_DEPTH && ScanValue(s, depth).Some?
    ensures var v, b := ScanValue(s, depth).value.node, Peek(s);
      && (v.Num? || v == Json.Word(Null) <==> IsDigit(b) || b == MINUS || b == 0x6e)
      && (v == Json.Word(Null) <==> b == 0x6e)
      && ((v.Empty? || v.Group?) && v.braces <==> b == Open(true))
  {
    var p := ScanValue(s, depth).value;
    ValueSound(s, depth);
    TextStart(p.node);
    Behind(ValueText(p.node, false), p.rest);
    hide ValueText, ScanValue, JsonOk;
  }

  /** Scans a value, keeping its text only if asked to. */
  method ScanOne(l: Lexer, keep: bool, depth: nat) returns (ok: bool, text: Bytes)
    requires depth <= MAX_DEPTH
    modifies l`rest, l`bytes
    ensures var r := ReadSpaced(old(l.rest), depth);
      Completes(old(l.View()), r, keep ==> r.Some? && |r.value.kept| <= MAX_FIELD_BYTES, ok, l.View())
    ensures ok && keep ==> text == ReadSpaced(old(l.rest), depth).value.kept
  {
    hide Performs, Completes, ReadSpaced;
    ghost var s, r := l.View(), ReadSpaced(l.rest, depth);
    var out := if keep then Some([]) else None;
    ok, out := l.Value(out, depth);
    text := [];
    if keep {
      KeptAlone(s, r, ok, l.View(), out);
      if ok {
        text := out.value;
      }
    } else {
      DiscardedAlone(s, r, ok, l.View(), out);
    }
  }

  /** Leading whitespace, which is no part of what a value says. */
  method SkipLead(l: Lexer, depth: nat, ghost good: bool) returns (ok: bool)
    requires depth <= MAX_DEPTH
    modifies l`rest, l`bytes
    ensures var s0, t := old(l.View()), RestOf(ReadSpace(old(l.rest)));
      if ok then l.rest == t && Under(s0, None, ReadSpaced(old(l.rest), depth), ReadSpace(old(l.rest)), l.View(), None, ReadSpaced(t, depth))
      else Completes(s0, ReadSpaced(old(l.rest), depth), good, false, l.View())
  {
    hide Performs, Under, ReadSpaced, ReadSpace, ReadValue;
    ghost var s0, whole, lead := l.View(), ReadSpaced(l.rest, depth), ReadSpace(l.rest);
    SpacedSteps(l.rest, depth);
    NoLead(l.rest, depth);
    ok := l.Space();
    FirstStep(s0, None, whole, lead, ok, l.View(), None, ReadValue(RestOf(lead), depth));
  }

  method UsageValue(l: Lexer, name: Name, u: Usage) returns (ok: bool, u': Usage)
    modifies l`rest, l`bytes
    ensures var v := ScanSpaced(old(l.rest), 2);
      Completes(old(l.View()), ReadSpaced(old(l.rest), 2), v.Some? && UsagePut(name, v.value.node, u).Some?, ok, l.View())
    ensures ok ==> UsagePut(name, ScanSpaced(old(l.rest), 2).value.node, u) == Some(u')
  {
    hide Performs, Under, Completes, ReadSpaced, ReadSpace, ScanSpaced, UsagePut, UsageKeyOf, IsDigit;
    ghost var s0, whole, v := l.View(), ReadSpaced(l.rest, 2), ScanSpaced(l.rest, 2);
    ghost var good := v.Some? && UsagePut(name, v.value.node, u).Some?;
    ghost var lead := ReadSpace(l.rest);
    u' := u;
    ok := SkipLead(l, 2, good);
    if !ok {
      return;
    }
    ghost var s := l.View();
    var key, b := UsageKeyOf(name), l.PeekByte();
    var keep := key.Some? && (IsDigit(b) || b == MINUS || b == 0x6e);
    var text;
    ok, text := ScanOne(l, keep, 2);
    UsageSaid(s0.rest, name, u);
    if key.None? {
      u' := u.(unknown := u.unknown + 1);
    } else {
      u' := u.(values := u.values[key.value := if keep then text else False.Text()]);
    }
    ghost var r := ReadSpaced(s.rest, 2);
    CompletesLast(s0, whole, lead, s, r, keep ==> r.Some? && |r.value.kept| <= MAX_FIELD_BYTES, ok, l.View());
    CompletesWhen(s0, whole, keep ==> r.Some? && |r.value.kept| <= MAX_FIELD_BYTES, good, ok, l.View());
  }

  function UsageNext(key: Option<UsageKey>, keep: bool, text: Bytes, u: Usage): Option<Usage> {
    if key.None? then Some(u.(unknown := u.unknown + 1))
    else if keep && |text| > MAX_FIELD_BYTES then None
    else Some(u.(values := u.values[key.value := if keep then text else False.Text()]))
  }

  /** What is put, by the first byte of the value. */
  lemma UsageSaid(s: Bytes, name: Name, u: Usage)
    ensures var t := RestOf(ReadSpace(s));
      var r, v, b, key := ReadSpaced(t, 2), ScanSpaced(s, 2), Peek(t), UsageKeyOf(name);
      var keep := key.Some? && (IsDigit(b) || b == MINUS || b == 0x6e);
      && (v.Some? <==> r.Some?) && (ReadSpaced(s, 2).Some? <==> v.Some?)
      && (v.Some? ==> UsagePut(name, v.value.node, u) == UsageNext(key, keep, r.value.kept, u))
  {
    SpacedParts(s, 2);
    var t := RestOf(ReadSpace(s));
    if ScanValue(t, 2).Some? {
      FirstByte(t, 2);
    }
    NoLead(s, 2);
    hide ScanValue, ScanSpaced, ValueText, JsonOk, UsageKeyOf, ReadSpace, SpacedText;
  }

  /** Two conditions that agree wherever the scanner accepts. */
  lemma CompletesWhen(s: State, r: Option<Read>, a: bool, b: bool, ok: bool, s': State)
    requires Completes(s, r, a, ok, s') && (r.Some? ==> (a <==> b))
    ensures Completes(s, r, b, ok, s')
  {
  }

  // ----- members

  lemma MemberGood<P>(put: (Name, Spaced, P) -> Option<P>, s: Bytes, depth: nat, seen: set<Name>, p: P)
    requires depth <= MAX_DEPTH
    ensures var m, k := ScanMember(true, s, depth), ScanKey(s);
      && (m.Some? <==> ReadMember(true, s, depth).Some?)
      && (m.Some? ==>
            && k.Some? && ReadKey(s).Some? && RestOf(ReadKey(s)) == k.value.rest
            && NameOf(m.value.node.key.value) == NameOf(k.value.node)
            && var v := ScanSpaced(k.value.rest, depth + 1);
               && v.Some?
               && FoldMember(put, s, depth, seen, p) == (
                    if KeySize(k.value.node) > MAX_FIELD_BYTES || NameOf(k.value.node) in seen then None
                    else put(NameOf(k.value.node), v.value.node, p)))
  {
    if ScanMember(true, s, depth).Some? {
      MemberParts(s, depth);
    }
    hide ScanMember, ScanKey, ScanSpaced, KeySize, NameOf, MemberText, KeyText;
  }

  /** The name is read: what is left is the value, unless the member is refused. */
  lemma MemberNamed<P>(put: (Name, Spaced, P) -> Option<P>, s0: State, depth: nat, seen: set<Name>, p: P,
      ok: bool, name: Name, s: State)
    requires depth < MAX_DEPTH
    requires var k := ScanKey(s0.rest);
      && Completes(s0, ReadKey(s0.rest), k.Some? && KeySize(k.value.node) <= MAX_FIELD_BYTES, ok, s)
      && (ok ==> name == NameOf(k.value.node))
    ensures var whole, all := ReadMember(true, s0.rest, depth), FoldMember(put, s0.rest, depth, seen, p);
      if ok && name !in seen then
        var v := ScanSpaced(s.rest, depth + 1);
        && Under(s0, None, whole, ReadKey(s0.rest), s, None, Bind(ReadSpaced(s.rest, depth + 1), ReadSpace(RestOf(ReadSpaced(s.rest, depth + 1)))))
        && (whole.Some? ==> v.Some? && all == put(name, v.value.node, p)) && (all.Some? ==> whole.Some?)
      else Completes(s0, whole, all.Some?, false, s)
  {
    hide Performs, Under, ReadKey, ReadMember, ReadSpaced, ReadSpace, ScanKey, ScanMember, ScanSpaced, KeySize, NameOf;
    MemberSteps(true, s0.rest, depth);
    MemberGood(put, s0.rest, depth, seen, p);
    FoldNeedsMember(put, s0.rest, depth, seen, p);
    var k := ScanKey(s0.rest);
    Begin(s0, None, ReadMember(true, s0.rest, depth));
    var nothing := Some(Read([], [], s0.rest));
    CompletesNext(s0, ReadMember(true, s0.rest, depth), nothing, s0, ReadKey(s0.rest),
        k.Some? && KeySize(k.value.node) <= MAX_FIELD_BYTES,
                  ok, s, ReadElement(RestOf(ReadKey(s0.rest)), depth), FoldMember(put, s0.rest, depth, seen, p).Some?);
    BindNothing(s0.rest, ReadKey(s0.rest));
  }

  lemma FoldNeedsMember<P>(put: (Name, Spaced, P) -> Option<P>, s: Bytes, depth: nat, seen: set<Name>, p: P)
    requires depth <= MAX_DEPTH
    ensures FoldMember(put, s, depth, seen, p).Some? ==> ScanMember(true, s, depth).Some?
  {
    hide ScanMember;
  }

  /** The value and the whitespace behind it are read: the member is done. */
  method EndMember<P>(l: Lexer, put: (Name, Spaced, P) -> Option<P>, ghost s0: State, ghost s: State, depth: nat,
      ghost seen: set<Name>, ghost p: P,
      name: Name, valued: bool)
    returns (ok: bool)
    requires depth < MAX_DEPTH
    requires var whole, all, v, r := ReadMember(true, s0.rest, depth), FoldMember(put, s0.rest, depth, seen, p),
               ScanSpaced(s.rest, depth + 1), ReadSpaced(s.rest, depth + 1);
      && Under(s0, None, whole, ReadKey(s0.rest), s, None, Bind(r, ReadSpace(RestOf(r))))
      && (whole.Some? ==> v.Some? && all == put(name, v.value.node, p)) && (all.Some? ==> whole.Some?)
      && Completes(s, r, v.Some? && put(name, v.value.node, p).Some?, valued, l.View())
    modifies l`rest, l`bytes
    ensures Completes(s0, ReadMember(true, s0.rest, depth), FoldMember(put, s0.rest, depth, seen, p).Some?, ok, l.View())
    ensures ok ==> valued
  {
    hide Performs, Under, Completes, ReadKey, ReadMember, ReadSpaced, ReadSpace, ScanSpaced, FoldMember;
    ghost var whole, all := ReadMember(true, s0.rest, depth), FoldMember(put, s0.rest, depth, seen, p);
    ghost var r, v := ReadSpaced(s.rest, depth + 1), ScanSpaced(s.rest, depth + 1);
    ghost var space := ReadSpace(RestOf(r));
    CompletesNext(s0, whole, ReadKey(s0.rest), s, r, v.Some? && put(name, v.value.node, p).Some?, valued, l.View(),
        space, all.Some?);
    if !valued {
      return false;
    }
    CompletesMeans(s, r, v.Some? && put(name, v.value.node, p).Some?, l.View());
    ghost var done, t := Bind(ReadKey(s0.rest), r), l.View();
    ok := l.Space();
    DiscardedAlone(t, space, ok, l.View(), None);
    CompletesLast(s0, whole, done, t, space, true, ok, l.View());
    CompletesWhen(s0, whole, true, all.Some?, ok, l.View());
  }

  lemma CompletesMeans(s: State, r: Option<Read>, good: bool, s': State)
    requires Completes(s, r, good, true, s')
    ensures good && r.Some?
  {
  }

  method UsageMember(l: Lexer, seen: set<Name>, u: Usage) returns (ok: bool, name: Name, u': Usage)
    modifies l`rest, l`bytes
    ensures var all := FoldMember(UsagePut, old(l.rest), 1, seen, u);
      && Completes(old(l.View()), ReadMember(true, old(l.rest), 1), all.Some?, ok, l.View())
      && (ok ==> all == Some(u') && name == NameOf(ScanMember(true, old(l.rest), 1).value.node.key.value))
  {
    hide Performs, Under, Completes, ReadKey, ReadMember, ReadSpaced, ReadSpace, ScanKey, ScanMember, ScanSpaced,
        UsagePut, FoldMember, NameOf, KeySize;
    ghost var s0 := l.View();
    u' := u;
    MemberGood(UsagePut, l.rest, 1, seen, u);
    ok, name := ReadName(l);
    MemberNamed(UsagePut, s0, 1, seen, u, ok, name, l.View());
    if !ok || name in seen {
      return false, name, u';
    }
    ghost var s := l.View();
    var valued;
    valued, u' := UsageValue(l, name, u);
    ok := EndMember(l, UsagePut, s0, s, 1, seen, u, name, valued);
    MemberDone(s0, 1, FoldMember(UsagePut, s0.rest, 1, seen, u).Some?, ok, l.View());
  }

  lemma MemberDone(s0: State, depth: nat, good: bool, ok: bool, s: State)
    requires depth < MAX_DEPTH && Completes(s0, ReadMember(true, s0.rest, depth), good, ok, s)
    ensures ok ==> ReadMember(true, s0.rest, depth).Some? && good
  {
    hide ReadMember;
  }

  // ----- objects

  /** Members read so far, and what the rest of them say. */
  ghost predicate Folding<P>(put: (Name, Spaced, P) -> Option<P>, s0: State, whole: Option<Read>, all: Option<P>,
      done: Option<Read>, s: State,
      depth: nat, n: nat, seen: set<Name>, p: P)
    requires depth < MAX_DEPTH && n <= MAX_FIELDS
  {
    && Under(s0, None, whole, done, s, None, if n < MAX_FIELDS then ReadItems(true, s.rest, depth, MAX_FIELDS - 1 - n) else None)
    && all == if n < MAX_FIELDS then FoldAt(put, s.rest, depth, MAX_FIELDS - 1 - n, seen, p) else None
  }

  /** What a member's end says about the rest. */
  ghost predicate Ending<P>(put: (Name, Spaced, P) -> Option<P>, s0: State, whole: Option<Read>, all: Option<P>,
      done: Option<Read>, s: State,
      depth: nat, n: nat, seen: set<Name>, p: P)
    requires depth < MAX_DEPTH && n < MAX_FIELDS
  {
    && Under(s0, None, whole, done, s, None, ItemsTail(true, s.rest, depth, MAX_FIELDS - 1 - n))
    && all == if Peek(s.rest) == Close(true) then Some(p)
              else if Peek(s.rest) != COMMA || n + 1 == MAX_FIELDS then None
              else FoldAt(put, s.rest[1..], depth, MAX_FIELDS - 2 - n, seen, p)
  }

  lemma FoldingMember<P>(put: (Name, Spaced, P) -> Option<P>, s0: State, whole: Option<Read>, all: Option<P>,
      done: Option<Read>, s: State,
      depth: nat, n: nat, seen: set<Name>, p: P, ok: bool, name: Name, p': P, s': State)
    requires depth < MAX_DEPTH && n < MAX_FIELDS && Folding(put, s0, whole, all, done, s, depth, n, seen, p)
    requires var m, q := ReadMember(true, s.rest, depth), FoldMember(put, s.rest, depth, seen, p);
      && Completes(s, m, q.Some?, ok, s')
      && (ok ==> q == Some(p') && m.Some? && name == NameOf(ScanMember(true, s.rest, depth).value.node.key.value))
    ensures if ok then Ending(put, s0, whole, all, Bind(done, ReadMember(true, s.rest, depth)), s', depth, n, seen + {name}, p')
            else Completes(s0, whole, all.Some?, false, s')
  {
    hide Performs, Under, ReadMember, ReadItems, ItemsTail, ScanMember, FoldMember, FoldAt, NameOf, Completes;
    var m := ReadMember(true, s.rest, depth);
    ItemsSteps(true, s.rest, depth, MAX_FIELDS - 1 - n);
    FoldSteps(put, s.rest, depth, MAX_FIELDS - 1 - n, seen, p);
    MemberRest(s.rest, depth);
    CompletesNext(s0, whole, done, s, m, FoldMember(put, s.rest, depth, seen, p).Some?, ok, s',
                  ItemsTail(true, RestOf(m), depth, MAX_FIELDS - 1 - n), all.Some?);
  }

  lemma MemberRest(s: Bytes, depth: nat)
    requires depth <= MAX_DEPTH
    ensures var m := ScanMember(true, s, depth);
      (m.Some? <==> ReadMember(true, s, depth).Some?) && (m.Some? ==> m.value.rest == RestOf(ReadMember(true, s, depth)))
  {
    hide ScanMember, MemberText;
  }

  /** What the object at the head of the input says. */
  function ObjectAt<P>(put: (Name, Spaced, P) -> Option<P>, s: Bytes, depth: nat, p: P): Option<P>
    requires depth <= MAX_DEPTH
  {
    var v := ScanValue(s, depth);
    if v.None? then None else FoldObject(put, v.value.node, p)
  }

  /** Only the closing brace is left. */
  ghost predicate Closing<P>(s0: State, whole: Option<Read>, all: Option<P>, done: Option<Read>, s: State, p: P) {
    Under(s0, None, whole, done, s, None, ReadExpected(s.rest, Close(true))) && all == Some(p)
  }

  lemma ObjectMeans<P>(put: (Name, Spaced, P) -> Option<P>, s: Bytes, depth: nat, p: P)
    requires depth < MAX_DEPTH && Peek(s) == Open(true)
    ensures var t := RestOf(ReadSpace(s[1..]));
      ObjectAt(put, s, depth, p) == if Peek(t) == Close(true) then Some(p) else FoldAt(put, t, depth, MAX_FIELDS - 1, {}, p)
  {
    ObjectParts(s, depth);
    hide ScanValue, ScanItems, ReadSpace;
  }

  /** The opening brace and the whitespace behind it. */
  method OpenObject<P>(l: Lexer, ghost put: (Name, Spaced, P) -> Option<P>, depth: nat, ghost p: P)
    returns (ok: bool, ghost done: Option<Read>)
    requires depth < MAX_DEPTH && Peek(l.rest) == Open(true)
    modifies l`rest, l`bytes
    ensures var s0, whole, all := old(l.View()), ReadValue(old(l.rest), depth), ObjectAt(put, old(l.rest), depth, p);
      if !ok then Completes(s0, whole, all.Some?, false, l.View())
      else if Peek(l.rest) == Close(true) then Closing(s0, whole, all, done, l.View(), p)
      else Folding(put, s0, whole, all, done, l.View(), depth, 0, {}, p)
  {
    hide Performs, Under, Completes, ReadValue, ReadItems, ReadSpace, FoldAt, ObjectAt;
    ghost var s0, whole, all := l.View(), ReadValue(l.rest, depth), ObjectAt(put, l.rest, depth, p);
    GroupSteps(true, l.rest, depth);
    ObjectMeans(put, l.rest, depth, p);
    ghost var a := ReadExpected(l.rest, Open(true));
    ghost var b := ReadSpace(RestOf(a));
    ghost var left := if Peek(RestOf(b)) == Close(true) then ReadExpected(RestOf(b), Close(true))
                      else ReadItems(true, RestOf(b), depth, MAX_FIELDS - 1);
    Begin(s0, None, whole);
    done := Some(Read([], [], l.rest));
    var none;
    ok, none := l.Expect(Open(true), None);
    DiscardedAlone(s0, a, ok, l.View(), none);
    CompletesNext(s0, whole, done, s0, a, true, ok, l.View(), Bind(b, left), all.Some?);
    if !ok {
      return;
    }
    done := Bind(done, a);
    ghost var s := l.View();
    ok := l.Space();
    DiscardedAlone(s, b, ok, l.View(), None);
    CompletesNext(s0, whole, done, s, b, true, ok, l.View(), left, all.Some?);
    done := Bind(done, b);
  }

  method CloseObject<P>(l: Lexer, ghost s0: State, ghost whole: Option<Read>, ghost all: Option<P>,
      ghost done: Option<Read>, ghost p: P)
    returns (ok: bool)
    requires Closing(s0, whole, all, done, l.View(), p)
    modifies l`rest, l`bytes
    ensures Completes(s0, whole, all.Some?, ok, l.View()) && (ok ==> all == Some(p))
  {
    hide Performs, Under, Completes;
    ghost var s, r := l.View(), ReadExpected(l.rest, Close(true));
    var none;
    ok, none := l.Expect(Close(true), None);
    DiscardedAlone(s, r, ok, l.View(), none);
    CompletesLast(s0, whole, done, s, r, true, ok, l.View());
    CompletesWhen(s0, whole, true, all.Some?, ok, l.View());
  }

  /** The comma between two members. */
  method NextMember<P>(l: Lexer, ghost put: (Name, Spaced, P) -> Option<P>, ghost s0: State,
      ghost whole: Option<Read>, ghost all: Option<P>,
      ghost done: Option<Read>, depth: nat, n: nat, ghost seen: set<Name>, ghost p: P)
    returns (ok: bool, ghost done': Option<Read>)
    requires depth < MAX_DEPTH && n < MAX_FIELDS && Peek(l.rest) != Close(true)
    requires Ending(put, s0, whole, all, done, l.View(), depth, n, seen, p)
    modifies l`rest, l`bytes
    ensures if ok then Folding(put, s0, whole, all, done', l.View(), depth, n + 1, seen, p)
            else Completes(s0, whole, all.Some?, false, l.View())
  {
    hide Performs, Under, Completes, ReadItems, FoldAt;
    ghost var s, comma := l.View(), ReadExpected(l.rest, COMMA);
    TailSteps(true, l.rest, depth, MAX_FIELDS - 1 - n);
    ghost var next := if n + 1 < MAX_FIELDS then ReadItems(true, RestOf(comma), depth, MAX_FIELDS - 2 - n) else None;
    var none;
    ok, none := l.Expect(COMMA, None);
    DiscardedAlone(s, comma, ok, l.View(), none);
    CompletesNext(s0, whole, done, s, comma, true, ok, l.View(), next, all.Some?);
    done' := Bind(done, comma);
    if ok {
      CommaRest(s, comma, l.View());
    }
  }

  lemma CommaRest(s: State, comma: Option<Read>, s': State)
    requires comma == ReadExpected(s.rest, COMMA) && comma.Some?
    ensures RestOf(comma) == s.rest[1..] && Peek(s.rest) == COMMA
  {
  }

  lemma EndsClosed<P>(put: (Name, Spaced, P) -> Option<P>, s0: State, whole: Option<Read>, all: Option<P>,
      done: Option<Read>, s: State,
      depth: nat, n: nat, seen: set<Name>, p: P)
    requires depth < MAX_DEPTH && n < MAX_FIELDS && Ending(put, s0, whole, all, done, s, depth, n, seen, p) && Peek(s.rest) == Close(true)
    ensures Closing(s0, whole, all, done, s, p)
  {
    hide Under, ReadItems;
  }

  lemma TooManyMembers<P>(put: (Name, Spaced, P) -> Option<P>, s0: State, whole: Option<Read>, all: Option<P>,
      done: Option<Read>, s: State,
      depth: nat, seen: set<Name>, p: P)
    requires depth < MAX_DEPTH && Folding(put, s0, whole, all, done, s, depth, MAX_FIELDS, seen, p)
    ensures Completes(s0, whole, all.Some?, false, s)
  {
  }

  /** A usage object, in braces. */
  method UsageObject(l: Lexer) returns (ok: bool, u: Usage)
    requires Peek(l.rest) == Open(true)
    modifies l`rest, l`bytes
    ensures var all := ObjectAt(UsagePut, old(l.rest), 1, NO_USAGE);
      Completes(old(l.View()), ReadValue(old(l.rest), 1), all.Some?, ok, l.View()) && (ok ==> all == Some(u))
  {
    hide Completes, ReadValue, ObjectAt, Folding, Ending, Closing, UsagePut, ReadMember, FoldMember, ScanMember, NameOf;
    ghost var s0, whole, all := l.View(), ReadValue(l.rest, 1), ObjectAt(UsagePut, l.rest, 1, NO_USAGE);
    u := NO_USAGE;
    ghost var done;
    ok, done := OpenObject(l, UsagePut, 1, NO_USAGE);
    if !ok {
      return;
    }
    if l.PeekByte() == Close(true) {
      ok := CloseObject(l, s0, whole, all, done, u);
      return;
    }
    var seen: set<Name> := {};
    for n := 0 to MAX_FIELDS
      invariant Folding(UsagePut, s0, whole, all, done, l.View(), 1, n, seen, u)
    {
      ghost var s, before := l.View(), u;
      ghost var m := ReadMember(true, l.rest, 1);
      var name;
      ok, name, u := UsageMember(l, seen, u);
      MemberDone(s, 1, FoldMember(UsagePut, s.rest, 1, seen, before).Some?, ok, l.View());
      FoldingMember(UsagePut, s0, whole, all, done, s, 1, n, seen, before, ok, name, u, l.View());
      if !ok {
        return;
      }
      done, seen := Bind(done, m), seen + {name};
      if l.PeekByte() == Close(true) {
        EndsClosed(UsagePut, s0, whole, all, done, l.View(), 1, n, seen, u);
        ok := CloseObject(l, s0, whole, all, done, u);
        return;
      }
      ok, done := NextMember(l, UsagePut, s0, whole, all, done, 1, n, seen, u);
      if !ok {
        return;
      }
    }
    TooManyMembers(UsagePut, s0, whole, all, done, l.View(), 1, seen, u);
    ok := false;
  }

  /** A usage value, whatever it is: only an object says anything. */
  method ReadUsage(l: Lexer) returns (ok: bool, u: Usage)
    modifies l`rest, l`bytes
    ensures var v := ScanSpaced(old(l.rest), 1);
      Completes(old(l.View()), ReadSpaced(old(l.rest), 1), v.Some? && UsageOf(v.value.node.value).Some?, ok, l.View())
    ensures ok ==> UsageOf(ScanSpaced(old(l.rest), 1).value.node.value) == Some(u)
  {
    hide Performs, Under, Completes, ReadSpaced, ReadSpace, ReadValue, ScanSpaced, UsageOf, ObjectAt, UsagePut;
    ghost var s0, whole, v := l.View(), ReadSpaced(l.rest, 1), ScanSpaced(l.rest, 1);
    ghost var good := v.Some? && UsageOf(v.value.node.value).Some?;
    ghost var lead := ReadSpace(l.rest);
    u := NO_USAGE;
    ok := SkipLead(l, 1, good);
    if !ok {
      return;
    }
    UsageMeans(s0.rest);
    ghost var s, r, all := l.View(), ReadSpaced(l.rest, 1), ObjectAt(UsagePut, l.rest, 1, NO_USAGE);
    if l.PeekByte() == Open(true) {
      ok, u := UsageObject(l);
      CompletesLast(s0, whole, lead, s, r, all.Some?, ok, l.View());
      CompletesWhen(s0, whole, all.Some?, good, ok, l.View());
      return;
    }
    u := u.(bad := l.PeekByte() != 0x6e);
    var none;
    ok, none := l.Value(None, 1);
    DiscardedAlone(s, r, ok, l.View(), none);
    CompletesLast(s0, whole, lead, s, r, true, ok, l.View());
    CompletesWhen(s0, whole, true, good, ok, l.View());
  }

  function UsageAt(t: Bytes): Option<Usage> {
    if Peek(t) == Open(true) then ObjectAt(UsagePut, t, 1, NO_USAGE) else Some(NO_USAGE.(bad := Peek(t) != 0x6e))
  }

  lemma UsageMeans(s: Bytes)
    ensures var t, v := RestOf(ReadSpace(s)), ScanSpaced(s, 1);
      && ReadSpaced(t, 1) == ReadValue(t, 1) && (v.Some? <==> ReadSpaced(s, 1).Some?)
      && (v.Some? ==> UsageOf(v.value.node.value) == UsageAt(t))
  {
    SpacedParts(s, 1);
    NoLead(s, 1);
    var t := RestOf(ReadSpace(s));
    if ScanValue(t, 1).Some? {
      FirstByte(t, 1);
    }
    hide ScanValue, ScanSpaced, ValueText, ReadSpace, Fold, SpacedText, JsonOk;
  }

  // ----- rows

  /** Reads a member's value as its name asks for: the level from a bounded lookahead, the
      usage by its own keys, an approved field as it is, and anything else not at all. */
  method RowValue(l: Lexer, name: Name, p: Row) returns (ok: bool, p': Row)
    modifies l`rest, l`bytes
    ensures var v := ScanSpaced(old(l.rest), 1);
      Completes(old(l.View()), ReadSpaced(old(l.rest), 1), v.Some? && RowPut(name, v.value.node, p).Some?, ok, l.View())
    ensures ok ==> RowPut(name, ScanSpaced(old(l.rest), 1).value.node, p) == Some(p')
  {
    hide Performs, Completes, ReadSpaced, ScanSpaced, RowPut, UsageOf, LevelOfValue, Approves, SpacedText, Named;
    ghost var s, r, v := l.View(), ReadSpaced(l.rest, 1), ScanSpaced(l.rest, 1);
    ghost var good := v.Some? && RowPut(name, v.value.node, p).Some?;
    RowMeans(l.rest, name, p);
    p' := p;
    if name == Named("level") {
      var level;
      ok, level := ReadLevel(l);
      p' := p.(level := Some(level));
      DiscardedAlone(s, r, ok, l.View(), None);
      CompletesWhen(s, r, true, good, ok, l.View());
    } else if name == Named("usage_details") {
      var u;
      ok, u := ReadUsage(l);
      p' := p.(usage := Some(u));
      CompletesWhen(s, r, v.Some? && UsageOf(v.value.node.value).Some?, good, ok, l.View());
    } else {
      var keep, text := Approves(name), [];
      ok, text := ScanOne(l, keep, 1);
      if keep {
        p' := p.(fields := p.fields[name := text]);
      }
      CompletesWhen(s, r, keep ==> r.Some? && |r.value.kept| <= MAX_FIELD_BYTES, good, ok, l.View());
    }
    if ok {
      CompletesMeans(s, r, good, l.View());
    }
  }

  /** What is put, by the name. */
  lemma RowMeans(s: Bytes, name: Name, p: Row)
    ensures var v, r := ScanSpaced(s, 1), ReadSpaced(s, 1);
      && (v.Some? <==> r.Some?)
      && (v.Some? && name == Named("level") ==> RowPut(name, v.value.node, p) == Some(p.(level := Some(LevelOfValue(v.value.node.value)))))
      && (v.Some? && name == Named("usage_details") && name != Named("level") ==>
            var u := UsageOf(v.value.node.value); RowPut(name, v.value.node, p) == if u.None? then None else Some(p.(usage := u)))
      && (v.Some? && name != Named("usage_details") && name != Named("level") ==>
            RowPut(name, v.value.node, p) == KeptNext(Approves(name), name, r.value.kept, p))
  {
    hide ScanSpaced, UsageOf, LevelOfValue, Approves, SpacedText, Named;
  }

  function KeptNext(keep: bool, name: Name, text: Bytes, p: Row): Option<Row> {
    if !keep then Some(p) else if |text| > MAX_FIELD_BYTES then None else Some(p.(fields := p.fields[name := text]))
  }

  method RowMember(l: Lexer, seen: set<Name>, p: Row) returns (ok: bool, name: Name, p': Row)
    modifies l`rest, l`bytes
    ensures var all := FoldMember(RowPut, old(l.rest), 0, seen, p);
      && Completes(old(l.View()), ReadMember(true, old(l.rest), 0), all.Some?, ok, l.View())
      && (ok ==> all == Some(p') && name == NameOf(ScanMember(true, old(l.rest), 0).value.node.key.value))
  {
    hide Performs, Under, Completes, ReadKey, ReadMember, ReadSpaced, ReadSpace, ScanKey, ScanMember, ScanSpaced,
        RowPut, FoldMember, NameOf, KeySize;
    ghost var s0 := l.View();
    p' := p;
    MemberGood(RowPut, l.rest, 0, seen, p);
    ok, name := ReadName(l);
    MemberNamed(RowPut, s0, 0, seen, p, ok, name, l.View());
    if !ok || name in seen {
      return false, name, p';
    }
    ghost var s := l.View();
    var valued;
    valued, p' := RowValue(l, name, p);
    ok := EndMember(l, RowPut, s0, s, 0, seen, p, name, valued);
    MemberDone(s0, 0, FoldMember(RowPut, s0.rest, 0, seen, p).Some?, ok, l.View());
  }

  /** Reads one row: accepted exactly when it is an object within the limits whose names do
      not repeat and whose approved fields fit, and then it says what the object says. */
  method ReadRow(l: Lexer) returns (ok: bool, p: Row)
    modifies l`rest, l`bytes
    ensures var s, v := old(l.rest), ScanValue(old(l.rest), 0);
      var all := if Peek(s) == Open(true) && v.Some? then FoldObject(RowPut, v.value.node, NO_ROW) else None;
      Completes(old(l.View()), ReadValue(s, 0), all.Some?, ok, l.View()) && (ok ==> all == Some(p))
  {
    hide Completes, ReadValue, ObjectAt, Folding, Ending, Closing, RowPut, ReadMember, FoldMember, ScanMember, NameOf;
    ghost var s0, whole, all := l.View(), ReadValue(l.rest, 0), ObjectAt(RowPut, l.rest, 0, NO_ROW);
    ObjectSays(l.rest);
    p := NO_ROW;
    if l.PeekByte() != Open(true) {
      CompletesNever(s0, whole, l.View());
      return false, p;
    }
    ghost var done;
    ok, done := OpenObject(l, RowPut, 0, NO_ROW);
    if !ok {
      return;
    }
    if l.PeekByte() == Close(true) {
      ok := CloseObject(l, s0, whole, all, done, p);
      return;
    }
    var seen: set<Name> := {};
    for n := 0 to MAX_FIELDS
      invariant Folding(RowPut, s0, whole, all, done, l.View(), 0, n, seen, p)
    {
      ghost var s, before := l.View(), p;
      ghost var m := ReadMember(true, l.rest, 0);
      var name;
      ok, name, p := RowMember(l, seen, p);
      MemberDone(s, 0, FoldMember(RowPut, s.rest, 0, seen, before).Some?, ok, l.View());
      FoldingMember(RowPut, s0, whole, all, done, s, 0, n, seen, before, ok, name, p, l.View());
      if !ok {
        return;
      }
      done, seen := Bind(done, m), seen + {name};
      if l.PeekByte() == Close(true) {
        EndsClosed(RowPut, s0, whole, all, done, l.View(), 0, n, seen, p);
        ok := CloseObject(l, s0, whole, all, done, p);
        return;
      }
      ok, done := NextMember(l, RowPut, s0, whole, all, done, 0, n, seen, p);
      if !ok {
        return;
      }
    }
    TooManyMembers(RowPut, s0, whole, all, done, l.View(), 0, seen, p);
    ok := false;
  }

  lemma ObjectSays(s: Bytes)
    ensures ObjectAt(RowPut, s, 0, NO_ROW) ==
      var v := ScanValue(s, 0); if v.Some? then FoldObject(RowPut, v.value.node, NO_ROW) else None
  {
  }

  lemma CompletesNever(s: State, r: Option<Read>, s': State)
    ensures Completes(s, r, false, false, s')
  {
  }

  // ----- what is not approved leaves no trace

  /** Whether anything is kept of a member's value. */
  predicate Looked(name: Name) {
    name == Named("level") || name == Named("usage_details") || Approves(name)
  }

  /** Two lists of members with the same names in the same order, and the same values
      wherever anything is kept of them. */
  predicate Alike(a: Items, b: Items)
    requires ItemsOk(a, true) && ItemsOk(b, true)
  {
    && a.member.key.Some? && b.member.key.Some? && a.member.key.value.chars == b.member.key.value.chars
    && (Looked(NameOf(a.member.key.value)) ==> a.member.value == b.member.value)
    && (a.More? <==> b.More?) && (a.More? ==> Alike(a.rest, b.rest))
  }

  /** The values of fields that are not approved make no difference to a row. */
  lemma {:induction false} UnapprovedUnseen(a: Items, b: Items, seen: set<Name>, p: Row)
    requires ItemsOk(a, true) && ItemsOk(b, true) && Alike(a, b)
    ensures Fold(RowPut, a, seen, p) == Fold(RowPut, b, seen, p)
    decreases a
  {
    OneUnseen(a, b, seen, p);
    hide RowPut, Looked, Scalars, Named, FoldOne, SpacedOk, MemberOk;
    var q := FoldOne(RowPut, a.member, seen, p);
    if q.Some? && a.More? {
      UnapprovedUnseen(a.rest, b.rest, seen + {NameOf(a.member.key.value)}, q.value);
    }
  }

  lemma OneUnseen(a: Items, b: Items, seen: set<Name>, p: Row)
    requires ItemsOk(a, true) && ItemsOk(b, true) && Alike(a, b)
    ensures a.member.key.Some? && b.member.key.Some? && NameOf(a.member.key.value) == NameOf(b.member.key.value)
    ensures FoldOne(RowPut, a.member, seen, p) == FoldOne(RowPut, b.member, seen, p)
  {
    hide Scalars, Named, UsageOf, SpacedText, LevelOfValue, StringText, JsonOk;
  }

  // ----- what is approved is kept as it is

  function MemberAt(items: Items, k: nat): Member
    requires k < Length(items)
  {
    if k == 0 then items.member else MemberAt(items.rest, k - 1)
  }

  predicate IsField(name: Name) {
    Approves(name) && name != Named("level") && name != Named("usage_details")
  }

  lemma OneHasKey(m: Member, seen: set<Name>, p: Row)
    requires FoldOne(RowPut, m, seen, p).Some?
    ensures m.key.Some?
  {
  }

  /** One member's effect on the field `name`. */
  lemma FieldNext(m: Member, seen: set<Name>, p: Row, q: Row, name: Name)
    requires FoldOne(RowPut, m, seen, p) == Some(q)
    ensures m.key.Some? && NameOf(m.key.value) !in seen && SpacedOk(m.value)
    ensures Lookup(q.fields, name) ==
      if name == NameOf(m.key.value) && IsField(name) then Some(SpacedText(m.value, true)) else Lookup(p.fields, name)
  {
    hide NameOf, Named, Approves, UsageOf, SpacedText, LevelOfValue, JsonOk;
  }

  lemma {:induction false} FieldStays(items: Items, seen: set<Name>, p: Row, q: Row, name: Name)
    requires Fold(RowPut, items, seen, p) == Some(q) && name in seen
    ensures Lookup(q.fields, name) == Lookup(p.fields, name)
    decreases items
  {
    hide FoldOne, NameOf, IsField, SpacedText, RowPut;
    OneHasKey(items.member, seen, p);
    var next := FoldOne(RowPut, items.member, seen, p).value;
    FieldNext(items.member, seen, p, next, name);
    if items.More? {
      FieldStays(items.rest, seen + {NameOf(items.member.key.value)}, next, q, name);
    }
  }

  /** An approved field of an accepted row is kept: its own text without whitespace. */
  lemma {:induction false} FieldKept(items: Items, k: nat, seen: set<Name>, p: Row, q: Row)
    requires Fold(RowPut, items, seen, p) == Some(q) && k < Length(items)
    ensures var m := MemberAt(items, k);
      && m.key.Some? && SpacedOk(m.value)
      && (IsField(NameOf(m.key.value)) ==> Lookup(q.fields, NameOf(m.key.value)) == Some(SpacedText(m.value, true)))
    decreases items
  {
    hide FoldOne, NameOf, IsField, SpacedText, RowPut, SpacedOk;
    OneHasKey(items.member, seen, p);
    var m, next := items.member, FoldOne(RowPut, items.member, seen, p).value;
    FieldNext(m, seen, p, next, NameOf(m.key.value));
    if k > 0 {
      FieldKept(items.rest, k - 1, seen + {NameOf(m.key.value)}, next, q);
    } else if items.More? {
      FieldStays(items.rest, seen + {NameOf(m.key.value)}, next, q, NameOf(m.key.value));
    }
  }
}
