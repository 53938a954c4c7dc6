/** CSV records and tables: approved columns come back as they were, the others are
    skipped, and the level column classifies as its full text would. */
module CsvTable {
  import opened Common
  import opened JsonText
  import opened JsonScan
  import opened JsonLanguage
  import opened JsonReads
  import opened JsonLexer
  import opened JsonFields
  import opened CsvText
  import opened CsvReader

  function Ascii(s: string): (b: Bytes)
    requires forall i :: 0 <= i < |s| ==> s[i] < 128 as char
    ensures |b| == |s|
  {
    seq(|s|, i requires 0 <= i < |s| => s[i] as int as byte)
  }

  /** The approved columns. */
  const ROW_KEYS: seq<string> := [
    "id", "project_id", "type", "start_time", "end_time", "total_cost", "usage_details", "provided_model_name",
    "user_id", "session_id", "environment", "release", "trace_name", "prompt_name", "tags"]

  predicate Approved(name: Bytes) {
    exists k :: 0 <= k < |ROW_KEYS| && (forall i :: 0 <= i < |ROW_KEYS[k]| ==> ROW_KEYS[k][i] < 128 as char) && Ascii(ROW_KEYS[k]) == name
  }

  function KeepOf(name: Bytes): Keep {
    if name == Ascii("level") then Level else if Approved(name) then Whole else Skip
  }

  /** What is kept of column `i`: everything in a header. */
  function KeepAt(names: Option<seq<Bytes>>, i: nat): Keep {
    if names.None? || i >= |names.value| then Whole else KeepOf(names.value[i])
  }

  predicate WidthOk(names: Option<seq<Bytes>>, n: nat) {
    names.Some? ==> n == |names.value|
  }

  /** The rest of a record from column `i` on. */
  function ReadLine(names: Option<seq<Bytes>>, s: Bytes, i: nat, room: nat): Option<Read>
    decreases room
  {
    if names.Some? && i >= |names.value| then None
    else
      var r := ReadField(KeepAt(names, i), s);
      if r.None? then None
      else
        match ScanField(s).value.node.end
        case Comma => if room == 0 then None else Bind(r, ReadLine(names, r.value.rest, i + 1, room - 1))
        case CarriageReturn => if WidthOk(names, i + 1) then Bind(r, ReadExpected(r.value.rest, NEWLINE)) else None
        case _ => if WidthOk(names, i + 1) then r else None
  }

  function Content(f: Field): Bytes {
    if TextOk(f.text) then EncodeText(f.text) else []
  }

  /** Every field the limits look at fits. */
  predicate AllFit(names: Option<seq<Bytes>>, fields: seq<Field>, i: nat) {
    fields == [] || (Fits(KeepAt(names, i), Content(fields[0])) && AllFit(names, fields[1..], i + 1))
  }

  /** The values a record yields, column by column. */
  function Values(names: Option<seq<Bytes>>, fields: seq<Field>, i: nat): (v: seq<Bytes>)
    ensures |v| == |fields|
  {
    if fields == [] then [] else [Retained(KeepAt(names, i), Content(fields[0]))] + Values(names, fields[1..], i + 1)
  }

  /** Reading a record step by step reads a well-formed line of the right width whose
      kept fields fit, and nothing else. */
  ghost predicate LineAgrees(names: Option<seq<Bytes>>, s: Bytes, i: nat, room: nat) {
    var p, r := ScanLine(s, room), ReadLine(names, s, i, room);
    && (r.Some? <==> p.Some? && WidthOk(names, i + |p.value.node.fields|) && AllFit(names, p.value.node.fields, i))
    && (r.Some? ==> r == Kept(LineText(p.value.node), p.value.rest))
  }

  lemma {:induction false} LineRead(names: Option<seq<Bytes>>, s: Bytes, i: nat, room: nat)
    requires names.Some? ==> i <= |names.value|
    ensures LineAgrees(names, s, i, room)
    decreases room
  {
    var f := ScanField(s);
    if f.Some? && f.value.node.end.Comma? && room > 0 && (names.Some? ==> i < |names.value|) {
      LineRead(names, f.value.rest, i + 1, room - 1);
      CommaAgrees(names, s, i, room);
    } else {
      LastAgrees(names, s, i, room);
    }
  }

  lemma CommaAgrees(names: Option<seq<Bytes>>, s: Bytes, i: nat, room: nat)
    requires room > 0 && ScanField(s).Some? && ScanField(s).value.node.end.Comma? && (names.Some? ==> i < |names.value|)
    requires LineAgrees(names, ScanField(s).value.rest, i + 1, room - 1)
    ensures LineAgrees(names, s, i, room)
  {
    LineUnfold(names, s, i, room);
    NextRead(names, s, i, room);
    hide ScanField, FieldText, FieldOk, KeepAt, Fits, AllFit, LineText, Content, ReadLine, ReadField, ScanLine;
  }

  lemma LastAgrees(names: Option<seq<Bytes>>, s: Bytes, i: nat, room: nat)
    requires !(ScanField(s).Some? && ScanField(s).value.node.end.Comma? && room > 0 && (names.Some? ==> i < |names.value|))
    requires names.Some? ==> i <= |names.value|
    ensures LineAgrees(names, s, i, room)
  {
    var f := ScanField(s);
    if f.Some? {
      if f.value.node.end.Comma? {
        if ScanLine(s, room).Some? {
          WideLine(s, room);
        }
      } else {
        LastRead(names, s, i, room);
      }
    }
    hide ScanField, FieldText, FieldOk, KeepAt, Fits, AllFit, LineText, Content, ReadField;
  }

  lemma WideLine(s: Bytes, room: nat)
    requires ScanField(s).Some? && ScanField(s).value.node.end.Comma? && ScanLine(s, room).Some?
    ensures room > 0 && |ScanLine(s, room).value.node.fields| >= 2
  {
    hide ScanField;
  }

  lemma NextRead(names: Option<seq<Bytes>>, s: Bytes, i: nat, room: nat)
    requires room > 0 && ScanField(s).Some? && ScanField(s).value.node.end.Comma? && (names.Some? ==> i < |names.value|)
    ensures var f, more, p := ScanField(s).value, ScanLine(ScanField(s).value.rest, room - 1), ScanLine(s, room);
      var r := ReadField(KeepAt(names, i), s);
      && (p.Some? <==> more.Some?) && (r.Some? <==> Fits(KeepAt(names, i), Content(f.node.field)))
      && (more.Some? ==>
            && p.value.rest == more.value.rest && |p.value.node.fields| == 1 + |more.value.node.fields|
            && (AllFit(names, p.value.node.fields, i) <==> r.Some? && AllFit(names, more.value.node.fields, i + 1))
            && (r.Some? ==> Kept(LineText(p.value.node), p.value.rest) == Bind(r, Kept(LineText(more.value.node), more.value.rest))))
  {
    var f, more := ScanField(s).value, ScanLine(ScanField(s).value.rest, room - 1);
    hide ScanField, FieldText, FieldOk, KeepAt, Fits, EncodeText;
    if more.Some? {
      var fields := [f.node.field] + more.value.node.fields;
      assert fields[1..] == more.value.node.fields;
      var text, tail, end := FieldText(f.node.field), FieldsText(more.value.node.fields), more.value.node.end.Text();
      Append3([COMMA], tail, end);
      Append3(text, [COMMA] + tail, end);
      Append3(text, [COMMA], tail + end);
    }
  }

  lemma LastRead(names: Option<seq<Bytes>>, s: Bytes, i: nat, room: nat)
    requires ScanField(s).Some? && !ScanField(s).value.node.end.Comma?
    ensures var f, p := ScanField(s).value, ScanLine(s, room);
      var r := ReadField(KeepAt(names, i), s);
      && (r.Some? <==> Fits(KeepAt(names, i), Content(f.node.field)))
      && (p.Some? ==> |p.value.node.fields| == 1 && (AllFit(names, p.value.node.fields, i) <==> r.Some?))
      && (p.Some? && r.Some? ==>
            Kept(LineText(p.value.node), p.value.rest)
            == if f.node.end.CarriageReturn? then Bind(r, ReadExpected(f.rest, NEWLINE)) else r)
  {
    var f, p := ScanField(s).value, ScanLine(s, room);
    hide ScanField, FieldText, FieldOk, KeepAt, Fits, EncodeText;
    if p.Some? {
      assert p.value.node.fields[1..] == [];
      var text := FieldText(f.node.field);
      Append3(text, [RETURN], [NEWLINE]);
      assert [RETURN] + [NEWLINE] == [RETURN, NEWLINE];
    }
  }

  /** One record. Without names it is a header and everything is kept. */
  method ReadRecord(l: Lexer, names: Option<seq<Bytes>>) returns (ok: bool, values: seq<Bytes>)
    modifies l
    ensures var s := old(l.View()).(bytes := 0, row := true);
      && (ok <==> ReadLine(names, s.rest, 0, MAX_FIELDS - 1).Some? && RowAllows(s, ReadLine(names, s.rest, 0, MAX_FIELDS - 1).value.text))
      && (ok ==> l.rest == ReadLine(names, s.rest, 0, MAX_FIELDS - 1).value.rest
                 && Some(values) == ValuesOf(names, s.rest, 0, MAX_FIELDS - 1))
    ensures !l.row && l.line == old(l.line)
  {
    l.bytes, l.row := 0, true;
    ghost var s := l.View();
    ok, values := ReadColumns(l, names);
    LineRead(names, s.rest, 0, MAX_FIELDS - 1);
    PerformedFully(s, ReadLine(names, s.rest, 0, MAX_FIELDS - 1), ok, l.View());
    hide ReadLine;
    l.row := false;
  }

  lemma PerformedFully(s: State, r: Option<Read>, ok: bool, s': State)
    requires Performs(s, None, r, ok, s', None)
    ensures ok <==> r.Some? && RowAllows(s, r.value.text)
    ensures ok ==> s'.rest == r.value.rest && s'.row == s.row && s'.line == s.line
  {
  }

  method ReadColumns(l: Lexer, names: Option<seq<Bytes>>) returns (ok: bool, values: seq<Bytes>)
    modifies l`rest, l`bytes
    ensures Performs(old(l.View()), None, ReadLine(names, old(l.rest), 0, MAX_FIELDS - 1), ok, l.View(), None)
    ensures ok ==> Some(values) == ValuesOf(names, old(l.rest), 0, MAX_FIELDS - 1)
  {
    hide Performs, Under, ReadLine, ValuesOf, Bind, Reading, Kept;
    WholeLine(names, l.rest);
    ghost var s0, whole := l.View(), ReadLine(names, l.rest, 0, MAX_FIELDS - 1);
    ghost var all := ValuesOf(names, l.rest, 0, MAX_FIELDS - 1);
    ghost var done, left := Kept([], l.rest), whole;
    StartReading(s0, names);
    values := [];
    ghost var room := MAX_FIELDS - 1;
    for i := 0 to MAX_FIELDS
      invariant |values| == i && room == MAX_FIELDS - 1 - i
      invariant Reading(s0, whole, done, l.View(), left, names, i, room, all, values)
    {
      var more, value;
      ok, more, value, done, left := ReadColumn(l, s0, whole, done, left, names, i, room, all, values);
      values := values + [value];
      if !ok || !more {
        if ok {
          PerformedSome(s0, whole, l.View());
        }
        return;
      }
      room := room - 1;
    }
    TooManyColumns(s0, whole, done, l.View(), left, names, room, all, values);
    ok := false;
  }

  lemma StartReading(s: State, names: Option<seq<Bytes>>)
    ensures var whole, all := ReadLine(names, s.rest, 0, MAX_FIELDS - 1), ValuesOf(names, s.rest, 0, MAX_FIELDS - 1);
      Reading(s, whole, Kept([], s.rest), s, whole, names, 0, MAX_FIELDS - 1, all, [])
  {
    Begin(s, None, ReadLine(names, s.rest, 0, MAX_FIELDS - 1));
    ValuesStart(ValuesOf(names, s.rest, 0, MAX_FIELDS - 1));
    hide Under, ReadLine, ValuesOf, Bind;
  }

  lemma TooManyColumns(s0: State, whole: Option<Read>, done: Option<Read>, s: State, left: Option<Read>,
                       names: Option<seq<Bytes>>, room: int, all: Option<seq<Bytes>>, values: seq<Bytes>)
    requires room < 0 && Reading(s0, whole, done, s, left, names, MAX_FIELDS, room, all, values)
    ensures Performs(s0, None, whole, false, s, None)
  {
    Refuses(s, None, s, None);
    Finish(s0, None, whole, done, s, None, None, false, s, None);
  }

  /** Columns before `i` have been read: what is left of the record, and what it all
      yields. After the last column that fits nothing may follow. */
  ghost predicate Reading(s0: State, whole: Option<Read>, done: Option<Read>, s: State, left: Option<Read>,
                          names: Option<seq<Bytes>>, i: nat, room: int, all: Option<seq<Bytes>>, values: seq<Bytes>) {
    && Under(s0, None, whole, done, s, None, left)
    && if room < 0 then left == None
       else left == ReadLine(names, s.rest, i, room) && all == AfterValues(values, ValuesOf(names, s.rest, i, room))
  }

  /** Column `i`; `more` if another one follows. */
  method ReadColumn(l: Lexer, ghost s0: State, ghost whole: Option<Read>, ghost done: Option<Read>,
      ghost left: Option<Read>,
                    names: Option<seq<Bytes>>, i: nat, ghost room: nat, ghost all: Option<seq<Bytes>>, ghost values: seq<Bytes>)
    returns (ok: bool, more: bool, value: Bytes, ghost done': Option<Read>, ghost left': Option<Read>)
    requires Reading(s0, whole, done, l.View(), left, names, i, room, all, values)
    modifies l`rest, l`bytes
    ensures !ok ==> Performs(s0, None, whole, false, l.View(), None)
    ensures ok && !more ==>
      (Performs(s0, None, whole, true, l.View(), None) && (all.None? || all == Some(values + [value])))
    ensures ok && more ==> Reading(s0, whole, done', l.View(), left', names, i + 1, room - 1, all, values + [value])
  {
    hide Performs, Under, ReadLine, ReadField, ScanLine, ScanField, EncodeText, LineTail, ValuesOf, AfterValues,
        KeepOf, Retained, Content, Bind;
    ghost var s := l.View();
    LineUnfold(names, l.rest, i, room);
    ghost var r, next := ReadField(KeepAt(names, i), s.rest), LineTail(names, s.rest, i, room);
    more, value, done', left' := false, [], Bind(done, r), next;
    if names.Some? && i >= |names.value| {
      Refuses(s, None, s, None);
      Finish(s0, None, whole, done, s, None, left, false, s, None);
      ok := false;
      return;
    }
    var end;
    ok, value, end := ReadCsvField(l, if names.None? then Whole else KeepOf(names.value[i]));
    Step(s0, None, whole, done, s, None, r, ok, l.View(), None, next);
    if !ok {
      return;
    }
    PerformedSome(s, r, l.View());
    FieldFound(KeepAt(names, i), s.rest);
    TailCases(names, s.rest, i, room);
    ValuesNext(names, s.rest, i, room, values, value);
    more := end == Comma;
    if !more {
      ghost var s1 := l.View();
      ok := EndRecord(l, end, names.None? || i + 1 == |names.value|, next);
      Finish(s0, None, whole, done', s1, None, next, ok, l.View(), None);
    }
  }

  /** The end of a record: a line feed must follow a carriage return, and the width
      must be right. */
  method EndRecord(l: Lexer, end: End, width: bool, ghost next: Option<Read>) returns (ok: bool)
    requires !end.Comma?
    requires next == if !width then None else if end.CarriageReturn? then ReadExpected(l.rest, NEWLINE) else Kept([], l.rest)
    modifies l`rest, l`bytes
    ensures Performs(old(l.View()), None, next, ok, l.View(), None)
  {
    hide Performs;
    ghost var s := l.View();
    ok := true;
    if end == CarriageReturn {
      var out;
      ok, out := l.Expect(NEWLINE, None);
      Discards(s, ReadExpected(s.rest, NEWLINE), ok, l.View(), out);
    } else {
      Idle(s, None);
    }
    if !width {
      Refuses(s, None, l.View(), None);
      ok := false;
    }
  }

  /** What follows field `i` of a record. */
  function LineTail(names: Option<seq<Bytes>>, s: Bytes, i: nat, room: nat): Option<Read> {
    var p := ScanField(s);
    if p.None? then None
    else
      match p.value.node.end
      case Comma => if room == 0 then None else ReadLine(names, p.value.rest, i + 1, room - 1)
      case CarriageReturn => if WidthOk(names, i + 1) then ReadExpected(p.value.rest, NEWLINE) else None
      case _ => if WidthOk(names, i + 1) then Kept([], p.value.rest) else None
  }

  lemma LineUnfold(names: Option<seq<Bytes>>, s: Bytes, i: nat, room: nat)
    ensures ReadLine(names, s, i, room) ==
      if names.Some? && i >= |names.value| then None else Bind(ReadField(KeepAt(names, i), s), LineTail(names, s, i, room))
  {
    hide ScanField, FieldText, FieldOk;
    var r := ReadField(KeepAt(names, i), s);
    if r.Some? {
      AppendNil(r.value.text);
    }
  }

  /** The values from column `i` on, if there is a line. */
  ghost function ValuesOf(names: Option<seq<Bytes>>, s: Bytes, i: nat, room: nat): Option<seq<Bytes>> {
    var p := ScanLine(s, room);
    if p.None? then None else Some(Values(names, p.value.node.fields, i))
  }

  ghost function AfterValues(values: seq<Bytes>, more: Option<seq<Bytes>>): Option<seq<Bytes>> {
    if more.None? then None else Some(values + more.value)
  }

  lemma WholeLine(names: Option<seq<Bytes>>, s: Bytes)
    ensures ReadLine(names, s, 0, MAX_FIELDS - 1).Some? ==> ValuesOf(names, s, 0, MAX_FIELDS - 1).Some?
  {
    LineRead(names, s, 0, MAX_FIELDS - 1);
  }

  lemma TailCases(names: Option<seq<Bytes>>, s: Bytes, i: nat, room: nat)
    requires ScanField(s).Some?
    ensures var f, next := ScanField(s).value, LineTail(names, s, i, room);
      if f.node.end.Comma? then next == if room == 0 then None else ReadLine(names, f.rest, i + 1, room - 1)
      else next == if !WidthOk(names, i + 1) then None
                   else if f.node.end.CarriageReturn? then ReadExpected(f.rest, NEWLINE) else Kept([], f.rest)
  {
    hide ReadLine, ScanField;
  }

  lemma ValuesStart(all: Option<seq<Bytes>>)
    ensures AfterValues([], all) == all
  {
    if all.Some? {
      NothingAdded(all.value);
    }
  }

  lemma PerformedSome(s: State, r: Option<Read>, s': State)
    requires Performs(s, None, r, true, s', None)
    ensures r.Some? && s'.rest == r.value.rest
  {
  }

  lemma FieldFound(keep: Keep, s: Bytes)
    requires ReadField(keep, s).Some?
    ensures var f := ScanField(s);
      f.Some? && TextOk(f.value.node.field.text) && ReadField(keep, s).value.rest == f.value.rest
      && Content(f.value.node.field) == EncodeText(f.value.node.field.text)
  {
    hide ScanField;
  }

  lemma ValuesNext(names: Option<seq<Bytes>>, s: Bytes, i: nat, room: nat, values: seq<Bytes>, value: Bytes)
    requires ScanField(s).Some? && value == Retained(KeepAt(names, i), Content(ScanField(s).value.node.field))
    ensures var f, all := ScanField(s).value, AfterValues(values, ValuesOf(names, s, i, room));
      if f.node.end.Comma? then all == if room == 0 then None else AfterValues(values + [value], ValuesOf(names, f.rest, i + 1, room - 1))
      else all.None? || all == Some(values + [value])
  {
    var f, p := ScanField(s).value, ScanLine(s, room);
    hide ScanField, KeepAt, FieldOk, Retained, Content;
    if p.Some? {
      var fields := p.value.node.fields;
      assert Values(names, fields, i) == [value] + Values(names, fields[1..], i + 1);
      if f.node.end.Comma? {
        var more := ScanLine(f.rest, room - 1).value.node.fields;
        assert fields[1..] == more;
        Append3(values, [value], Values(names, more, i + 1));
      } else {
        assert fields[1..] == [];
        AppendNil([value]);
      }
    }
    hide Values, ScanLine;
  }

  // ----- tables

  /** The rows after the header, each within the row limit, to the end of the input. */
  ghost function ScanRows(names: seq<Bytes>, s: Bytes): Option<seq<seq<Bytes>>>
    decreases |s|
  {
    if Peek(s) == 0 then if s == [] then Some([]) else None
    else
      var r, values := ReadLine(Some(names), s, 0, MAX_FIELDS - 1), ValuesOf(Some(names), s, 0, MAX_FIELDS - 1);
      if r.None? || values.None? || |r.value.text| > MAX_ROW_BYTES || |r.value.rest| >= |s| then None
      else
        var more := ScanRows(names, r.value.rest);
        if more.None? then None else Some([values.value] + more.value)
  }

  predicate HeaderOk(names: seq<Bytes>) {
    (forall i :: 0 <= i < |names| ==> names[i] != []) && (forall i, j :: 0 <= i < j < |names| ==> names[i] != names[j])
  }

  /** A line that is read takes up input. */
  lemma LineAdvances(names: Option<seq<Bytes>>, s: Bytes)
    requires Peek(s) != 0 && ReadLine(names, s, 0, MAX_FIELDS - 1).Some?
    ensures |ReadLine(names, s, 0, MAX_FIELDS - 1).value.rest| < |s| && ValuesOf(names, s, 0, MAX_FIELDS - 1).Some?
  {
    LineRead(names, s, 0, MAX_FIELDS - 1);
    LineSound(s, MAX_FIELDS - 1);
    var p := ScanLine(s, MAX_FIELDS - 1).value;
    hide ScanLine, LineText, ReadLine;
    if LineText(p.node) == [] {
      EmptyLine(p.node);
      NothingAdded(p.rest);
    }
  }

  lemma EmptyLine(line: Line)
    requires FieldsOk(line.fields) && LineText(line) == []
    ensures line.end.AtEnd?
  {
  }

  datatype Table = Table(names: seq<Bytes>, rows: seq<seq<Bytes>>)

  /** The table the whole input holds: a header record of distinct names, then the rows. */
  ghost function TableAt(s: Bytes): Option<Table> {
    var header, first := ReadLine(None, s, 0, MAX_FIELDS - 1), ValuesOf(None, s, 0, MAX_FIELDS - 1);
    if Peek(s) == 0 || header.None? || first.None? || |header.value.text| > MAX_ROW_BYTES || !HeaderOk(first.value) then None
    else
      var rows := ScanRows(first.value, header.value.rest);
      if rows.None? then None else Some(Table(first.value, rows.value))
  }

  /** Reads a whole table: the names of its columns, and its rows. */
  method ReadTable(l: Lexer) returns (ok: bool, names: seq<Bytes>, rows: seq<seq<Bytes>>)
    requires !l.line
    modifies l
    ensures TableAt(old(l.rest)) == if ok then Some(Table(names, rows)) else None
  {
    hide ReadLine, ValuesOf;
    names, rows := [], [];
    if l.PeekByte() == 0 {
      return false, [], [];
    }
    ghost var s := l.rest;
    if ReadLine(None, s, 0, MAX_FIELDS - 1).Some? {
      LineAdvances(None, s);
    }
    ok, names := ReadRecord(l, None);
    if !ok {
      return;
    }
    var seen: set<Bytes> := {};
    for i := 0 to |names|
      invariant forall j :: 0 <= j < i ==> names[j] != [] && names[j] in seen
      invariant forall n :: n in seen ==> exists j :: 0 <= j < i && names[j] == n
      invariant forall j, k :: 0 <= j < k < i ==> names[j] != names[k]
    {
      if names[i] == [] || names[i] in seen {
        return false, names, rows;
      }
      seen := seen + {names[i]};
    }
    ghost var start := l.rest;
    hide HeaderOk;
    forall more: seq<seq<Bytes>> ensures [] + more == more { NothingAdded(more); }
    while l.PeekByte() != 0
      invariant !l.line
      invariant (forall more :: ScanRows(names, l.rest) == Some(more) ==> ScanRows(names, start) == Some(rows + more))
      invariant ScanRows(names, l.rest).None? ==> ScanRows(names, start).None?
      decreases |l.rest|
    {
      ghost var before := l.rest;
      if ReadLine(Some(names), before, 0, MAX_FIELDS - 1).Some? {
        LineAdvances(Some(names), before);
      }
      var values;
      ok, values := ReadRecord(l, Some(names));
      if !ok {
        return;
      }
      forall more | ScanRows(names, l.rest) == Some(more) ensures ScanRows(names, start) == Some(rows + [values] + more) {
        Append3(rows, [values], more);
        assert ScanRows(names, before) == Some([values] + more);
      }
      rows := rows + [values];
    }
    ok := l.rest == [];
    AppendNil(rows);
  }

  // ----- round trips

  /** What a table may look like: every record of the header's width, without NUL and within
      the limits, only the last one possibly without a line end. */
  predicate RowsOk(names: seq<Bytes>, lines: seq<Line>) {
    lines == [] ||
    (&& RowOk(Some(names), lines[0]) && (lines[0].end.AtEnd? ==> |lines| == 1 && LineText(lines[0]) != [])
     && RowsOk(names, lines[1..]))
  }

  predicate RowOk(names: Option<seq<Bytes>>, line: Line) {
    && FieldsOk(line.fields) && Clean(line.fields) && |line.fields| <= MAX_FIELDS && WidthOk(names, |line.fields|)
    && AllFit(names, line.fields, 0) && |LineText(line)| <= MAX_ROW_BYTES
  }

  function RowsText(names: seq<Bytes>, lines: seq<Line>): Bytes
    requires RowsOk(names, lines)
  {
    if lines == [] then [] else LineText(lines[0]) + RowsText(names, lines[1..])
  }

  function RowsValues(names: seq<Bytes>, lines: seq<Line>): (v: seq<seq<Bytes>>)
    ensures |v| == |lines|
  {
    if lines == [] then [] else [Values(Some(names), lines[0].fields, 0)] + RowsValues(names, lines[1..])
  }

  /** Reading a rendered record gives its values back, however it was quoted. */
  lemma RecordRoundTrip(names: Option<seq<Bytes>>, line: Line, rest: Bytes)
    requires RowOk(names, line) && (line.end.AtEnd? ==> Peek(rest) == 0)
    ensures ReadLine(names, LineText(line) + rest, 0, MAX_FIELDS - 1) == Kept(LineText(line), rest)
    ensures ValuesOf(names, LineText(line) + rest, 0, MAX_FIELDS - 1) == Some(Values(names, line.fields, 0))
  {
    LineComplete(line, rest, MAX_FIELDS - 1);
    LineRead(names, LineText(line) + rest, 0, MAX_FIELDS - 1);
    hide ScanLine, LineText, ReadLine, Values, AllFit;
  }

  /** Reading rendered rows gives every row back. */
  lemma {:induction false} RowsRoundTrip(names: seq<Bytes>, lines: seq<Line>)
    requires RowsOk(names, lines)
    ensures ScanRows(names, RowsText(names, lines)) == Some(RowsValues(names, lines))
  {
    if lines != [] {
      var more := RowsText(names, lines[1..]);
      RowsRoundTrip(names, lines[1..]);
      RecordRoundTrip(Some(names), lines[0], more);
      LineNonempty(lines[0], more);
      hide ReadLine, ValuesOf, LineText, Values, RowOk, RowsText;
    }
  }

  /** What a whole table may look like: the header's names are distinct and not empty, and
      only the last record may lack its line end. */
  predicate TableOk(header: Line, lines: seq<Line>) {
    && RowOk(None, header) && HeaderOk(Values(None, header.fields, 0)) && (header.end.AtEnd? ==> lines == [])
    && RowsOk(Values(None, header.fields, 0), lines)
  }

  /** Reading a rendered table, header and rows, gives its names and every row back. */
  lemma TableRoundTrip(header: Line, lines: seq<Line>)
    requires TableOk(header, lines)
    ensures var names := Values(None, header.fields, 0);
      TableAt(LineText(header) + RowsText(names, lines)) == Some(Table(names, RowsValues(names, lines)))
  {
    var names := Values(None, header.fields, 0);
    HeaderText(header);
    hide ReadLine, ValuesOf, LineText, Values, RowOk, RowsText, RowsOk, HeaderOk, RowsValues;
    var rows := RowsText(names, lines);
    if header.end.AtEnd? {
      NoRows(names);
    }
    RowsRoundTrip(names, lines);
    RecordRoundTrip(None, header, rows);
    LineNonempty(header, rows);
    HeaderFits(header);
  }

  lemma NoRows(names: seq<Bytes>)
    ensures RowsText(names, []) == []
  {
  }

  lemma HeaderFits(header: Line)
    requires RowOk(None, header)
    ensures |LineText(header)| <= MAX_ROW_BYTES && FieldsOk(header.fields) && Clean(header.fields)
  {
  }

  /** A record whose first name is not empty is not empty itself. */
  lemma HeaderText(header: Line)
    requires RowOk(None, header) && HeaderOk(Values(None, header.fields, 0))
    ensures LineText(header) != []
  {
    var f := header.fields[0];
    assert Values(None, header.fields, 0)[0] == Retained(Whole, Content(f)) != [];
    assert f.text != [] && FieldText(f) != [];
    hide FieldText, Content, Retained;
  }

  lemma LineNonempty(line: Line, more: Bytes)
    requires FieldsOk(line.fields) && Clean(line.fields) && (line.end.AtEnd? ==> LineText(line) != [])
    ensures Peek(LineText(line) + more) != 0 && |more| < |LineText(line) + more|
  {
    if LineText(line) == [] {
      EmptyLine(line);
    }
    TextNoNul(line);
    hide LineText;
    Behind(LineText(line), more);
  }

  lemma TextNoNul(line: Line)
    requires FieldsOk(line.fields) && Clean(line.fields)
    ensures LineText(line) != [] ==> LineText(line)[0] != 0
  {
    var f := line.fields[0];
    if |line.fields| > 1 {
      Append3(FieldText(f), [COMMA] + FieldsText(line.fields[1..]), line.end.Text());
    }
    if FieldText(f) != [] && !f.quoted {
      ScalarComplete(f.text[0], []);
      AppendNil(EncodeScalar(f.text[0]));
    }
    hide FieldsText, InnerText;
  }

  /** A value is everything in an approved column, and nothing in any other. */
  lemma {:induction false} ValuesAt(names: Option<seq<Bytes>>, fields: seq<Field>, i: nat, k: nat)
    requires k < |fields|
    ensures Values(names, fields, i)[k] == Retained(KeepAt(names, i + k), Content(fields[k]))
  {
    hide Content, Retained, KeepAt;
    if k > 0 {
      ValuesAt(names, fields[1..], i + 1, k - 1);
      assert i + 1 + (k - 1) == i + k;
    }
  }

  /** Of every record: approved columns are whole, a level is whole if it is short, and
      nothing is left of any other column. */
  lemma ColumnKept(names: seq<Bytes>, fields: seq<Field>, k: nat)
    requires k < |fields| && k < |names|
    ensures var value, content := Values(Some(names), fields, 0)[k], Content(fields[k]);
      if names[k] == Ascii("level") then value == (if |content| <= 7 then content else [])
      else if exists j :: 0 <= j < |ROW_KEYS| && Spells(names[k], ROW_KEYS[j]) then value == content
      else value == []
  {
    hide Values, Content, ROW_KEYS, Approved, Spells;
    ValuesAt(Some(names), fields, 0, k);
    ApprovedSpelled(names[k]);
  }

  lemma ApprovedSpelled(name: Bytes)
    ensures Approved(name) <==> exists j :: 0 <= j < |ROW_KEYS| && Spells(name, ROW_KEYS[j])
  {
    hide ROW_KEYS;
    if Approved(name) {
      var j :| 0 <= j < |ROW_KEYS| && (forall i :: 0 <= i < |ROW_KEYS[j]| ==> ROW_KEYS[j][i] < 128 as char)
        && Ascii(ROW_KEYS[j]) == name;
      assert Spells(name, ROW_KEYS[j]);
    }
    if j :| 0 <= j < |ROW_KEYS| && Spells(name, ROW_KEYS[j]) {
      assert Ascii(ROW_KEYS[j]) == name;
    }
  }

  /** The bytes are those of an ASCII string. */
  predicate Spells(b: Bytes, s: string) {
    |b| == |s| && forall i :: 0 <= i < |s| ==> s[i] < 128 as char && b[i] as int == s[i] as int
  }

  function AsScalars(b: Bytes): seq<int> {
    seq(|b|, i requires 0 <= i < |b| => b[i] as int)
  }

  /** Seven buffered bytes classify a level as its full text would. */
  lemma LevelBufferEnough(content: Bytes)
    ensures LevelOf(AsScalars(Retained(Keep.Level, content))) == LevelOf(AsScalars(content))
  {
  }
}
