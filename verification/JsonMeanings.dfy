/** What a row's usage and level are: those of the members with their names. */
module JsonMeanings {
  import opened Common
  import opened JsonText
  import opened JsonFields
  import opened JsonReads
  import opened JsonRows

  function Written(key: UsageKey): string {
    match key
    case Input => "input"
    case Output => "output"
    case CacheRead => "input_cached_tokens"
    case CacheWrite => "input_cache_creation"
    case Reasoning => "output_reasoning_tokens"
    case Sum => "total"
  }

  predicate HasName(m: Member, s: string) {
    m.key.Some? && NameOf(m.key.value) == Named(s)
  }

  /** The member has none of the names a usage object is read for. */
  predicate Unknown(m: Member) {
    forall key: UsageKey :: !HasName(m, Written(key))
  }

  /** A number as it is spelled, null, or "false" for anything else. */
  function UsageBytes(v: Json): Bytes {
    match v
    case Num(n) => NumberText(n)
    case Word(w) => if w == Null then Null.Text() else False.Text()
    case _ => False.Text()
  }

  function Unknowns(items: Items): nat {
    (if Unknown(items.member) then 1 else 0) + if items.More? then Unknowns(items.rest) else 0
  }

  /** The value under a usage key is that of the member with the key's name, if there is one. */
  ghost predicate Holds(items: Items, key: UsageKey, value: Option<Bytes>) {
    && (forall k: nat :: k < Length(items) && HasName(MemberAt(items, k), Written(key)) ==>
          value == Some(UsageBytes(MemberAt(items, k).value.value)))
    && (value.Some? ==> exists k: nat :: k < Length(items) && HasName(MemberAt(items, k), Written(key)))
  }

  /** What a usage value says: an object the values of its known members and how many others
      it has, anything else nothing, and that it is not null. */
  ghost predicate Says(v: Json, u: Usage) {
    match v
    case Group(true, _, items) =>
      (forall key: UsageKey :: Holds(items, key, Lookup(u.values, key))) && u.unknown == Unknowns(items) && !u.bad
    case Empty(true, _) => u == Usage(map[], 0, false)
    case _ => u == Usage(map[], 0, v != Json.Word(Null))
  }

  lemma NamesDiffer(a: UsageKey, b: UsageKey)
    requires a != b
    ensures Named(Written(a)) != Named(Written(b))
  {
    if |Written(a)| == |Written(b)| {
      assert Named(Written(a))[0] != Named(Written(b))[0];
    }
  }

  lemma KeyFor(name: Name, key: UsageKey)
    ensures UsageKeyOf(name) == Some(key) <==> name == Named(Written(key))
  {
    forall other: UsageKey | other != key ensures Named(Written(other)) != Named(Written(key)) {
      NamesDiffer(other, key);
    }
    hide Named;
    assert Written(Input) == "input" && Written(Output) == "output" && Written(CacheRead) == "input_cached_tokens";
    assert Written(CacheWrite) == "input_cache_creation" && Written(Reasoning) == "output_reasoning_tokens";
    assert Written(Sum) == "total";
  }

  /** One member's effect on what is known. */
  lemma OneUsage(m: Member, seen: set<Name>, u: Usage, w: Usage)
    requires FoldOne(UsagePut, m, seen, u) == Some(w)
    ensures m.key.Some? && NameOf(m.key.value) !in seen
    ensures w.bad == u.bad && w.unknown == u.unknown + if Unknown(m) then 1 else 0
    ensures forall key: UsageKey ::
      (Lookup(w.values, key) == if HasName(m, Written(key)) then Some(UsageBytes(m.value.value)) else Lookup(u.values, key))
  {
    hide NameOf, Named, UsageKeyOf, NumberText, Literal.Text, Written;
    forall key: UsageKey ensures UsageKeyOf(NameOf(m.key.value)) == Some(key) <==> HasName(m, Written(key)) {
      KeyFor(NameOf(m.key.value), key);
    }
  }

  lemma UsageHasKey(m: Member, seen: set<Name>, u: Usage)
    requires FoldOne(UsagePut, m, seen, u).Some?
    ensures m.key.Some?
  {
  }

  /** What is known under a name seen before stays, and what no member names is not known. */
  lemma {:induction false} UsageStays(items: Items, seen: set<Name>, u: Usage, w: Usage, key: UsageKey)
    requires Fold(UsagePut, items, seen, u) == Some(w)
    ensures Named(Written(key)) in seen ==> Lookup(w.values, key) == Lookup(u.values, key)
    ensures Lookup(w.values, key) != Lookup(u.values, key) ==>
      exists k: nat :: k < Length(items) && HasName(MemberAt(items, k), Written(key))
    decreases items
  {
    hide FoldOne, NameOf, Named, Written, UsagePut, UsageBytes, Unknown;
    UsageHasKey(items.member, seen, u);
    var m, next := items.member, FoldOne(UsagePut, items.member, seen, u).value;
    OneUsage(m, seen, u, next);
    if items.More? {
      UsageStays(items.rest, seen + {NameOf(m.key.value)}, next, w, key);
      if Lookup(w.values, key) != Lookup(next.values, key) {
        var k: nat :| k < Length(items.rest) && HasName(MemberAt(items.rest, k), Written(key));
        assert MemberAt(items, k + 1) == MemberAt(items.rest, k);
      }
    }
    if HasName(m, Written(key)) {
      assert MemberAt(items, 0) == m;
    }
  }

  lemma {:induction false} UsageAtMember(items: Items, k: nat, seen: set<Name>, u: Usage, w: Usage, key: UsageKey)
    requires Fold(UsagePut, items, seen, u) == Some(w) && k < Length(items) && HasName(MemberAt(items, k), Written(key))
    ensures Lookup(w.values, key) == Some(UsageBytes(MemberAt(items, k).value.value))
    decreases items
  {
    hide FoldOne, NameOf, Named, Written, UsagePut, UsageBytes, Unknown;
    UsageHasKey(items.member, seen, u);
    var m, next := items.member, FoldOne(UsagePut, items.member, seen, u).value;
    OneUsage(m, seen, u, next);
    if k > 0 {
      UsageAtMember(items.rest, k - 1, seen + {NameOf(m.key.value)}, next, w, key);
    } else if items.More? {
      UsageStays(items.rest, seen + {NameOf(m.key.value)}, next, w, key);
    }
  }

  lemma {:induction false} UsageUnknowns(items: Items, seen: set<Name>, u: Usage, w: Usage)
    requires Fold(UsagePut, items, seen, u) == Some(w)
    ensures w.unknown == u.unknown + Unknowns(items) && w.bad == u.bad
    decreases items
  {
    hide FoldOne, NameOf, Named, Written, UsagePut, UsageBytes, Unknown;
    UsageHasKey(items.member, seen, u);
    var m, next := items.member, FoldOne(UsagePut, items.member, seen, u).value;
    OneUsage(m, seen, u, next);
    if items.More? {
      UsageUnknowns(items.rest, seen + {NameOf(m.key.value)}, next, w);
    }
  }

  /** A usage value that is accepted is understood. */
  lemma UsageSays(v: Json, u: Usage)
    requires UsageOf(v) == Some(u)
    ensures Says(v, u)
  {
    hide FoldOne, NameOf, Named, Written, UsagePut, UsageBytes, Unknown, Fold, Unknowns, Length, MemberAt;
    if v.Group? && v.braces {
      UsageUnknowns(v.items, {}, NO_USAGE, u);
      forall key: UsageKey ensures Holds(v.items, key, Lookup(u.values, key)) {
        UsageStays(v.items, {}, NO_USAGE, u, key);
        forall k: nat | k < Length(v.items) && HasName(MemberAt(v.items, k), Written(key))
          ensures Lookup(u.values, key) == Some(UsageBytes(MemberAt(v.items, k).value.value))
        {
          UsageAtMember(v.items, k, {}, NO_USAGE, u, key);
        }
      }
    }
  }

  const LEVEL := "level"
  const USAGE := "usage_details"

  /** One member's effect on the level and the usage. */
  lemma OneDetail(m: Member, seen: set<Name>, p: Row, q: Row)
    requires FoldOne(RowPut, m, seen, p) == Some(q)
    ensures m.key.Some? && NameOf(m.key.value) !in seen && JsonOk(m.value.value)
    ensures q.level == if HasName(m, LEVEL) then Some(LevelOfValue(m.value.value)) else p.level
    ensures if HasName(m, USAGE) then q.usage.Some? && Says(m.value.value, q.usage.value) else q.usage == p.usage
  {
    assert |Named(LEVEL)| != |Named(USAGE)|;
    hide NameOf, Named, Approves, SpacedText, LevelOfValue, Says;
    if HasName(m, USAGE) {
      var u := UsageOf(m.value.value);
      hide UsageOf;
      UsageSays(m.value.value, u.value);
    }
    hide UsageOf;
  }

  /** The row's level is that of its member of that name, and its usage says what its usage
      member says; without the member there is none. */
  ghost predicate Details(items: Items, p: Row, q: Row) {
    && (forall k: nat :: k < Length(items) ==> DetailAt(MemberAt(items, k), q))
    && (q.level != p.level ==> exists k: nat :: k < Length(items) && HasName(MemberAt(items, k), LEVEL))
    && (q.usage != p.usage ==> exists k: nat :: k < Length(items) && HasName(MemberAt(items, k), USAGE))
  }

  ghost predicate DetailAt(m: Member, q: Row) {
    && JsonOk(m.value.value)
    && (HasName(m, LEVEL) ==> q.level == Some(LevelOfValue(m.value.value)))
    && (HasName(m, USAGE) ==> q.usage.Some? && Says(m.value.value, q.usage.value))
  }

  lemma {:induction false} DetailsKept(items: Items, seen: set<Name>, p: Row, q: Row)
    requires Fold(RowPut, items, seen, p) == Some(q)
    ensures Details(items, p, q)
    ensures Named(LEVEL) in seen ==> q.level == p.level
    ensures Named(USAGE) in seen ==> q.usage == p.usage
    decreases items
  {
    hide FoldOne, NameOf, Named, RowPut, Says, LevelOfValue;
    OneHasKey(items.member, seen, p);
    var m, next := items.member, FoldOne(RowPut, items.member, seen, p).value;
    OneDetail(m, seen, p, next);
    if items.More? {
      DetailsKept(items.rest, seen + {NameOf(m.key.value)}, next, q);
      DetailsMore(items, p, next, q);
    } else {
      assert MemberAt(items, 0) == m;
    }
  }

  lemma DetailsMore(items: Items, p: Row, next: Row, q: Row)
    requires items.More? && Details(items.rest, next, q) && DetailAt(items.member, q)
    requires next.level != p.level ==> HasName(items.member, LEVEL)
    requires next.usage != p.usage ==> HasName(items.member, USAGE)
    ensures Details(items, p, q)
  {
    hide HasName, DetailAt;
    assert MemberAt(items, 0) == items.member;
    forall k: nat | k < Length(items) ensures DetailAt(MemberAt(items, k), q) {
      if k > 0 {
        assert MemberAt(items, k) == MemberAt(items.rest, k - 1);
      }
    }
    if q.level != next.level {
      var k: nat :| k < Length(items.rest) && HasName(MemberAt(items.rest, k), LEVEL);
      assert MemberAt(items, k + 1) == MemberAt(items.rest, k);
    }
    if q.usage != next.usage {
      var k: nat :| k < Length(items.rest) && HasName(MemberAt(items.rest, k), USAGE);
      assert MemberAt(items, k + 1) == MemberAt(items.rest, k);
    }
  }

  /** A field that is kept has a member of its name. */
  lemma {:induction false} FieldNamed(items: Items, seen: set<Name>, p: Row, q: Row, name: Name)
    requires Fold(RowPut, items, seen, p) == Some(q) && Lookup(q.fields, name) != Lookup(p.fields, name)
    ensures IsField(name)
    ensures exists k: nat :: k < Length(items) && MemberAt(items, k).key.Some? && NameOf(MemberAt(items, k).key.value) == name
    decreases items
  {
    hide FoldOne, NameOf, IsField, SpacedText, RowPut;
    OneHasKey(items.member, seen, p);
    var m, next := items.member, FoldOne(RowPut, items.member, seen, p).value;
    FieldNext(m, seen, p, next, name);
    if items.More? && Lookup(q.fields, name) != Lookup(next.fields, name) {
      FieldNamed(items.rest, seen + {NameOf(m.key.value)}, next, q, name);
      var k: nat :|
        k < Length(items.rest) && MemberAt(items.rest, k).key.Some? && NameOf(MemberAt(items.rest, k).key.value) == name;
      assert MemberAt(items, k + 1) == MemberAt(items.rest, k);
    } else {
      assert MemberAt(items, 0) == m;
    }
  }

  /** Everything an accepted row says is what the members of its object say. */
  ghost predicate RowSays(items: Items, q: Row) {
    && Details(items, NO_ROW, q)
    && (forall k: nat :: k < Length(items) ==> FieldAt(MemberAt(items, k), q))
    && (forall name :: name in q.fields ==>
          IsField(name) && exists k: nat :: k < Length(items) && MemberAt(items, k).key.Some? && NameOf(MemberAt(items, k).key.value) == name)
  }

  ghost predicate FieldAt(m: Member, q: Row) {
    && m.key.Some? && SpacedOk(m.value)
    && (IsField(NameOf(m.key.value)) ==> Lookup(q.fields, NameOf(m.key.value)) == Some(SpacedText(m.value, true)))
  }

  lemma RowMeans(v: Json, q: Row)
    requires FoldObject(RowPut, v, NO_ROW) == Some(q)
    ensures if v.Group? then RowSays(v.items, q) else q == NO_ROW
  {
    hide FoldOne, NameOf, IsField, SpacedText, RowPut, Details, SpacedOk, Fold;
    if v.Group? {
      DetailsKept(v.items, {}, NO_ROW, q);
      forall k: nat | k < Length(v.items) ensures FieldAt(MemberAt(v.items, k), q) {
        FieldKept(v.items, k, {}, NO_ROW, q);
      }
      forall name | name in q.fields
        ensures IsField(name)
        ensures exists k: nat ::
                  k < Length(v.items) && MemberAt(v.items, k).key.Some? && NameOf(MemberAt(v.items, k).key.value) == name
      {
        FieldNamed(v.items, {}, NO_ROW, q, name);
      }
    }
  }

  // ----- what is accepted

  function NameIn(items: Items, k: nat): Name
    requires ItemsOk(items, true) && k < Length(items)
  {
    MembersOk(items, k);
    NameOf(MemberAt(items, k).key.value)
  }

  lemma {:induction false} MembersOk(items: Items, k: nat)
    requires ItemsOk(items, true) && k < Length(items)
    ensures MemberOk(MemberAt(items, k), true)
    decreases items
  {
    if k > 0 {
      MembersOk(items.rest, k - 1);
    }
  }

  /** No name occurs twice, or among `seen`. */
  ghost predicate Distinct(items: Items, seen: set<Name>)
    requires ItemsOk(items, true)
  {
    && (forall k: nat :: k < Length(items) ==> NameIn(items, k) !in seen)
    && (forall i: nat, j: nat :: i < j < Length(items) ==> NameIn(items, i) != NameIn(items, j))
  }

  lemma DistinctMore(items: Items, seen: set<Name>)
    requires ItemsOk(items, true)
    ensures var name := NameOf(items.member.key.value);
      Distinct(items, seen) <==> name !in seen && (items.More? ==> Distinct(items.rest, seen + {name}))
  {
    hide NameOf, SpacedOk, KeyOk;
    var name := NameOf(items.member.key.value);
    assert NameIn(items, 0) == name;
    if items.More? {
      assert forall k: nat :: k < Length(items.rest) ==> NameIn(items, k + 1) == NameIn(items.rest, k);
      if Distinct(items, seen) {
        assert forall k: nat :: k < Length(items.rest) ==> NameIn(items.rest, k) !in seen && NameIn(items.rest, k) != name;
      }
      if name !in seen && Distinct(items.rest, seen + {name}) {
        forall k: nat | k < Length(items) ensures NameIn(items, k) !in seen && (k > 0 ==> NameIn(items, k) != name) {
          if k > 0 {
            assert NameIn(items, k) == NameIn(items.rest, k - 1);
          }
        }
        forall i: nat, j: nat | i < j < Length(items) ensures NameIn(items, i) != NameIn(items, j) {
          if i > 0 {
            assert NameIn(items, i) == NameIn(items.rest, i - 1) && NameIn(items, j) == NameIn(items.rest, j - 1);
          }
        }
      }
    }
  }

  /** The name, and a known value, are within the field limit. */
  predicate UsageFits(m: Member)
    requires MemberOk(m, true)
  {
    && |StringText(m.key.value.chars)| <= MAX_FIELD_BYTES
    && (!Unknown(m) ==> |UsageBytes(m.value.value)| <= MAX_FIELD_BYTES)
  }

  /** The name, an approved field's text and a usage value are within their limits. */
  predicate RowFits(m: Member)
    requires MemberOk(m, true)
  {
    && |StringText(m.key.value.chars)| <= MAX_FIELD_BYTES
    && (IsField(NameOf(m.key.value)) ==> |SpacedText(m.value, true)| <= MAX_FIELD_BYTES)
    && (HasName(m, USAGE) && m.value.value.Group? && m.value.value.braces ==>
          Fold(UsagePut, m.value.value.items, {}, NO_USAGE).Some?)
  }

  predicate MemberFits(items: Items, k: nat, usage: bool)
    requires ItemsOk(items, true) && k < Length(items)
  {
    MembersOk(items, k);
    if usage then UsageFits(MemberAt(items, k)) else RowFits(MemberAt(items, k))
  }

  /** Every member of a usage object, or of a row, fits. */
  ghost predicate AllFit(items: Items, usage: bool)
    requires ItemsOk(items, true)
  {
    forall k: nat :: k < Length(items) ==> MemberFits(items, k, usage)
  }

  lemma AllFitMore(items: Items, usage: bool)
    requires ItemsOk(items, true)
    ensures AllFit(items, usage) <==>
      MemberFits(items, 0, usage) && (items.More? ==> AllFit(items.rest, usage))
    ensures MemberFits(items, 0, usage) <==> if usage then UsageFits(items.member) else RowFits(items.member)
  {
    hide UsageFits, RowFits, NameOf, SpacedOk, KeyOk;
    if items.More? {
      forall k: nat | k < Length(items.rest) ensures MemberFits(items, k + 1, usage) == MemberFits(items.rest, k, usage) {
      }
      if AllFit(items.rest, usage) && MemberFits(items, 0, usage) {
        forall k: nat | k < Length(items) ensures MemberFits(items, k, usage) {
          if k > 0 {
            assert MemberFits(items.rest, k - 1, usage);
          }
        }
      }
    }
  }

  lemma OneUsageAccepted(m: Member, seen: set<Name>, u: Usage)
    requires MemberOk(m, true)
    ensures FoldOne(UsagePut, m, seen, u).Some? <==> UsageFits(m) && NameOf(m.key.value) !in seen
  {
    hide NameOf, Named, UsageKeyOf, NumberText, Literal.Text, Written, StringText, CharsOk;
    assert KeyOk(m.key.value) && SpacedOk(m.value);
    forall key: UsageKey ensures UsageKeyOf(NameOf(m.key.value)) == Some(key) <==> HasName(m, Written(key)) {
      KeyFor(NameOf(m.key.value), key);
    }
  }

  /** A usage object is accepted exactly when its names are distinct and they and its known
      values fit. */
  lemma {:induction false} UsageAccepted(items: Items, seen: set<Name>, u: Usage)
    requires ItemsOk(items, true)
    ensures Fold(UsagePut, items, seen, u).Some?
       <==> Distinct(items, seen) && AllFit(items, true)
    decreases items
  {
    hide FoldOne, NameOf, UsageFits, UsagePut, Distinct, AllFit, SpacedOk, KeyOk;
    var m := items.member;
    OneUsageAccepted(m, seen, u);
    DistinctMore(items, seen);
    AllFitMore(items, true);
    if items.More? {
      var q := FoldOne(UsagePut, m, seen, u);
      if q.Some? {
        UsageAccepted(items.rest, seen + {NameOf(m.key.value)}, q.value);
      }
    }
  }

  lemma OneRowAccepted(m: Member, seen: set<Name>, p: Row)
    requires MemberOk(m, true)
    ensures FoldOne(RowPut, m, seen, p).Some? <==> RowFits(m) && NameOf(m.key.value) !in seen
  {
    assert |Named(LEVEL)| != |Named(USAGE)|;
    hide NameOf, Named, Approves, SpacedText, LevelOfValue, StringText, CharsOk, Fold, UsagePut;
    assert KeyOk(m.key.value) && SpacedOk(m.value);
  }

  /** A row is accepted exactly when its names are distinct, they and its approved fields fit,
      and its usage is accepted. */
  lemma {:induction false} RowAccepted(items: Items, seen: set<Name>, p: Row)
    requires ItemsOk(items, true)
    ensures Fold(RowPut, items, seen, p).Some?
       <==> Distinct(items, seen) && AllFit(items, false)
    decreases items
  {
    hide FoldOne, NameOf, RowFits, RowPut, Distinct, AllFit, SpacedOk, KeyOk;
    var m := items.member;
    OneRowAccepted(m, seen, p);
    DistinctMore(items, seen);
    AllFitMore(items, false);
    if items.More? {
      var q := FoldOne(RowPut, m, seen, p);
      if q.Some? {
        RowAccepted(items.rest, seen + {NameOf(m.key.value)}, q.value);
      }
    }
  }

  // ----- what is read of strings

  /** A level is known by its name, spelled in any way. */
  lemma LevelNames(text: Name)
    ensures LevelOf(text) == Default <==> text == Named("DEFAULT")
    ensures LevelOf(text) == Debug <==> text == Named("DEBUG")
    ensures LevelOf(text) == Warning <==> text == Named("WARNING")
    ensures LevelOf(text) == Error <==> text == Named("ERROR")
  {
    assert Named("DEFAULT") == [0x44, 0x45, 0x46, 0x41, 0x55, 0x4c, 0x54] && Named("DEBUG") == [0x44, 0x45, 0x42, 0x55, 0x47];
    assert Named("WARNING") == [0x57, 0x41, 0x52, 0x4e, 0x49, 0x4e, 0x47] && Named("ERROR") == [0x45, 0x52, 0x52, 0x4f, 0x52];
  }

  /** The letter that stands for a control character behind a backslash. */
  function Letter(control: int): Option<char> {
    if control == '\n' as int then Some('n') else if control == '\t' as int then Some('t')
    else if control == '\r' as int then Some('r') else if control == 0x08 then Some('b')
    else if control == 0x0c then Some('f') else None
  }

  /** A character is spelled as itself if it is not a control, a quote or a backslash, with a
      backslash if it is one of those two or a slash, by its letter, or by its code unit. */
  lemma Spellings(c: Char)
    requires CharOk(c) && Scalar(c) < 0x80
    ensures var n := Scalar(c);
      match c
      case Plain(b) => b as int == n >= 0x20 && n != '"' as int && n != '\\' as int
      case Escape(b) => Letter(n) == Some(b as char) || (b as int == n && b as char in {'"', '\\', '/'})
      case Unit(hex) => UnitValue(hex) == n
      case _ => false
  {
    if c.Escape? {
      assert c.b as char == '"' || c.b as char == '\\' || c.b as char == '/' || Letter(Scalar(c)).Some?;
    }
  }
}
