/** Running the archive helper again: after success nothing is left to do, and
    after a crash the next run can list the directory and aims at the same archive. */
module ArchiveRecovery {
  import opened Common
  import opened ArchiveDisk
  import opened ArchiveInstall
  import opened ArchivePlan

  ghost predicate Named(files: Files) {
    forall n :: n in files ==> n == ArchiveName(files[n].doc)
  }

  /** `after` is `files` with part of the plan carried out. */
  ghost predicate Reached(files: Files, plan: Plan, after: Files) {
    forall n: FileName ::
      || Lookup(after, n) == Lookup(files, n)
      || (n in plan.writes && Lookup(after, n) == Some(plan.writes[n]))
      || (n in plan.remove && n !in after)
  }

  lemma KeptSlotAfter(files: Files, input: seq<Envelope>, keep: nat, now: int, after: Files, n: FileName)
    requires Reached(files, PlanOf(files, input, keep, now), after) && n in Kept(files, input, keep, now)
    ensures Lookup(Selected(after, input, now), n) == Some(Kept(files, input, keep, now)[n])
  {
    var s := Kept(files, input, keep, now)[n];
    SelectedNewest(files, input, now, n);
    SelectedNewest(after, input, now, n);
    assert Offered(after, input, now, n);
    assert Newest(after, input, now, n, s);
    NewestUnique(after, input, now, n, s, Selected(after, input, now)[n]);
  }

  lemma NoNewSlots(files: Files, input: seq<Envelope>, keep: nat, now: int, after: Files, n: FileName)
    requires Reached(files, PlanOf(files, input, keep, now), after) && n in Selected(after, input, now)
    ensures n in Selected(files, input, now)
  {
    SelectedNewest(files, input, now, n);
    SelectedNewest(after, input, now, n);
  }

  /** The windows on offer shrink at most by ones that are not retained. */
  lemma StartsAfter(files: Files, input: seq<Envelope>, keep: nat, now: int, after: Files)
    requires Named(files) && Named(after) && Reached(files, PlanOf(files, input, keep, now), after)
    ensures var sel, sel' := Selected(files, input, now), Selected(after, input, now);
      && (forall n :: n in sel' ==> n in sel && sel'[n].doc.start == sel[n].doc.start)
      && NewestStarts(Starts(sel), keep) <= Starts(sel') <= Starts(sel)
  {
    hide Selected, Reached, PlanOf, LaterThan;
    var sel, sel' := Selected(files, input, now), Selected(after, input, now);
    SelectionKeepsNames(files, input, now);
    SelectionKeepsNames(after, input, now);
    forall n | n in sel' ensures n in sel && sel'[n].doc.start == sel[n].doc.start {
      NoNewSlots(files, input, keep, now, after, n);
      assert sel'[n].doc.start == n.start == sel[n].doc.start;
    }
    forall s | s in NewestStarts(Starts(sel), keep) ensures s in Starts(sel') {
      var n :| n in sel && sel[n].doc.start == s;
      KeptSlotAfter(files, input, keep, now, after, n);
    }
  }

  /** However much of the plan was carried out, the rules ask for the same archive. */
  lemma KeptAfter(files: Files, input: seq<Envelope>, keep: nat, now: int, after: Files)
    requires Named(files) && Named(after) && Reached(files, PlanOf(files, input, keep, now), after)
    ensures Kept(after, input, keep, now) == Kept(files, input, keep, now)
  {
    var kept, kept' := Kept(files, input, keep, now), Kept(after, input, keep, now);
    StartsAfter(files, input, keep, now, after);
    NewestStartsStable(Starts(Selected(files, input, now)), Starts(Selected(after, input, now)), keep);
    forall n: FileName ensures Lookup(kept', n) == Lookup(kept, n) {
      if n in kept {
        KeptSlotAfter(files, input, keep, now, after, n);
      }
      if n in kept' {
        assert n in kept;
      }
    }
    SameLookup(kept', kept);
  }

  /** Equal bytes are equal documents. */
  ghost predicate Canonical(files: Files, input: seq<Envelope>) {
    forall n, k :: n in files && 0 <= k < |input| && input[k].encoding == Some(files[n].data) ==> input[k] == files[n].doc
  }

  /** Whatever is selected is archived already or comes with its encoding. */
  lemma {:induction false} SelectedEncoded(files: Files, input: seq<Envelope>, now: int, n: FileName)
    requires Encodable(files, input, now) && n in Selected(files, input, now)
    ensures var s := Selected(files, input, now)[n];
      || (n in files && s == files[n])
      || exists k :: 0 <= k < |input| && input[k].encoding.Some? && s == Encoded(input[k]) && n == ArchiveName(input[k])
  {
    if input != [] {
      var last := |input| - 1;
      var before := input[..last];
      assert input[..last] == before;
      assert Encodable(files, before, now) by {
        forall k | 0 <= k < |before| && Refreshes(Selected(files, before[..k], now), before[k], now)
          ensures before[k].encoding.Some?
        {
          assert before[..k] == input[..k] && before[k] == input[k];
        }
      }
      if !Refreshes(Selected(files, before, now), input[last], now) || ArchiveName(input[last]) != n {
        SelectedEncoded(files, before, now, n);
      }
    }
  }

  /** Installing the plan yields exactly the kept snapshots. */
  lemma InstalledIsKept(files: Files, input: seq<Envelope>, keep: nat, now: int)
    requires Canonical(files, input) && Encodable(files, input, now)
    ensures PlanOf(files, input, keep, now).Install(files) == Kept(files, input, keep, now)
  {
    var plan, kept := PlanOf(files, input, keep, now), Kept(files, input, keep, now);
    var final := plan.Install(files);
    forall n: FileName ensures Lookup(final, n) == Lookup(kept, n) {
      if n in kept && n in files && files[n].data == kept[n].data {
        SelectedEncoded(files, input, now, n);
      }
    }
    SameLookup(final, kept);
  }

  /** Planning again right after a full installation finds nothing to do. */
  lemma ReplanIsEmpty(files: Files, input: seq<Envelope>, keep: nat, now: int)
    requires Named(files) && Canonical(files, input) && Encodable(files, input, now)
    ensures PlanOf(PlanOf(files, input, keep, now).Install(files), input, keep, now) == Plan(map[], {})
  {
    var kept := Kept(files, input, keep, now);
    InstalledIsKept(files, input, keep, now);
    SelectionKeepsNames(files, input, now);
    KeptAfter(files, input, keep, now, kept);
    assert PlanOf(kept, input, keep, now).writes == map[];
    assert kept.Keys - kept.Keys == {};
  }

  /** Two closed source documents share a retained slot but not the sequence. */
  ghost predicate MixedSlot(files: Files, input: seq<Envelope>, keep: nat, now: int) {
    exists i, j :: 0 <= i < |input| && 0 <= j < |input| && Mixed(input[i], input[j], now)
      && ArchiveName(input[i]) in Kept(files, input, keep, now)
  }

  ghost predicate Mixed(a: Envelope, b: Envelope, now: int) {
    Closed(a, now) && Closed(b, now) && ArchiveName(a) == ArchiveName(b) && a.sequence < b.sequence
  }

  /** Repeating an accepted run is rejected as stale exactly when the source mixes
      sequences in a retained slot. */
  lemma RerunStaleIffMixed(files: Files, input: seq<Envelope>, keep: nat, now: int)
    requires Canonical(files, input) && Encodable(files, input, now) && !Stale(files, input, now)
    ensures Stale(PlanOf(files, input, keep, now).Install(files), input, now) <==> MixedSlot(files, input, keep, now)
  {
    var kept := Kept(files, input, keep, now);
    InstalledIsKept(files, input, keep, now);
    if k :| 0 <= k < |input| && OlderThanArchived(kept, input[k], now) {
      var n := ArchiveName(input[k]);
      SelectedNewest(files, input, now, n);
      assert !OlderThanArchived(files, input[k], now);
      var j :| 0 <= j < |input| && FirstAt(input, now, n, kept[n], j);
      assert Mixed(input[k], input[j], now);
    }
    if i, j :| 0 <= i < |input| && 0 <= j < |input| && Mixed(input[i], input[j], now) && ArchiveName(input[i]) in kept {
      SelectedNewest(files, input, now, ArchiveName(input[i]));
      assert OlderThanArchived(kept, input[i], now);
    }
  }

  /** A single slot is always among the retained ones. */
  lemma SoleSlotKept(files: Files, input: seq<Envelope>, now: int, n: FileName)
    requires n.Archived? && n in Selected(files, input, now) && Named(files)
    requires forall m :: m in Selected(files, input, now) ==> m == n
    ensures n in Kept(files, input, 1, now)
  {
    var sel := Selected(files, input, now);
    SelectionKeepsNames(files, input, now);
    assert Starts(sel) == {sel[n].doc.start};
    assert LaterThan(Starts(sel), sel[n].doc.start) == {};
  }

  /** For example: two cumulative snapshots of one slot in the source are accepted
      into an empty archive once, and rejected the second time. */
  lemma TwoSequencesRunOnce(first: Envelope, second: Envelope, now: int)
    requires Mixed(first, second, now) && first.encoding.Some? && second.encoding.Some?
    ensures !Stale(map[], [first, second], now) && Encodable(map[], [first, second], now)
    ensures Stale(PlanOf(map[], [first, second], 1, now).Install(map[]), [first, second], now)
  {
    var input, n := [first, second], ArchiveName(first);
    SelectedNewest(map[], input, now, n);
    assert Closed(input[0], now);
    forall m | m in Selected(map[], input, now) ensures m == n {
      SelectedNewest(map[], input, now, m);
    }
    SoleSlotKept(map[], input, now, n);
    assert Mixed(input[0], input[1], now);
    RerunStaleIffMixed(map[], input, 1, now);
  }

  // ----- listing the directory

  type Parser = Bytes -> Option<Envelope>

  /** The file's bytes parse to a document that belongs under its name. */
  predicate Recognised(parse: Parser, n: FileName, data: Bytes) {
    n.Archived? && parse(data).Some? && ArchiveName(parse(data).value) == n
  }

  ghost function ArchiveNames(m: Listing): set<FileName> {
    set n: FileName | n in m && n.Archived?
  }

  /** The directory is within every limit and holds nothing the helper must refuse. */
  ghost predicate Listable(m: Listing, parse: Parser) {
    && |m| <= MAX_ENTRIES && Size(m) <= MAX_INPUT_BYTES && |ArchiveNames(m)| <= MAX_FILES
    && (forall n: FileName :: n in m && n.Unrelated? ==> !n.json)
    && (forall n: FileName :: n in m && n.Archived? ==> Recognised(parse, n, m[n]))
  }

  ghost function ReadFiles(m: Listing, parse: Parser): Files {
    map n: FileName | n in m && Recognised(parse, n, m[n]) :: Snapshot(parse(m[n]).value, m[n])
  }

  lemma SizeNonnegative(m: Listing)
    ensures 0 <= Size(m)
  {
    TotalMonotone(map[], Sizes(m));
  }

  lemma SizeInsert(m: Listing, n: FileName, data: Bytes)
    requires n !in m
    ensures Size(m[n := data]) == Size(m) + |data|
  {
    assert Sizes(m[n := data]) == Sizes(m)[n := |data|];
    TotalInsert(Sizes(m), n, |data|);
  }

  lemma SizePart(m: Listing, part: Listing)
    requires forall n :: n in part ==> n in m && m[n] == part[n]
    ensures Size(part) <= Size(m) && |ArchiveNames(part)| <= |ArchiveNames(m)|
  {
    TotalMonotone(Sizes(part), Sizes(m));
    SubsetSize(ArchiveNames(part), ArchiveNames(m));
  }

  function Without(m: Listing, left: set<FileName>): Listing {
    map n | n in m && n !in left :: m[n]
  }

  /** The files outside `left` have been read and are acceptable so far. */
  ghost predicate ReadBut(all: Listing, parse: Parser, left: set<FileName>, bytes: int, files: Files) {
    && left <= all.Keys && Listable'(Without(all, left), parse)
    && bytes == Size(Without(all, left)) && files == ReadFiles(Without(all, left), parse)
  }

  ghost predicate Listable'(m: Listing, parse: Parser) {
    && Size(m) <= MAX_INPUT_BYTES && |ArchiveNames(m)| <= MAX_FILES
    && (forall n: FileName :: n in m && n.Unrelated? ==> !n.json)
    && (forall n: FileName :: n in m && n.Archived? ==> Recognised(parse, n, m[n]))
  }

  /** The checks made on one more file. */
  predicate Admits(parse: Parser, bytes: int, files: Files, n: FileName, data: Bytes) {
    && |data| <= MAX_INPUT_BYTES - bytes
    && (n.Archived? ==> |files| < MAX_FILES && Recognised(parse, n, data))
    && (n.Unrelated? ==> !n.json)
  }

  lemma NamesRead(m: Listing, parse: Parser)
    requires Listable'(m, parse)
    ensures ReadFiles(m, parse).Keys == ArchiveNames(m) && |ReadFiles(m, parse)| == |ArchiveNames(m)|
  {
    assert |ReadFiles(m, parse)| == |ReadFiles(m, parse).Keys|;
  }

  lemma NamesInsert(m: Listing, n: FileName, data: Bytes)
    requires n !in m
    ensures |ArchiveNames(m[n := data])| == |ArchiveNames(m)| + if n.Archived? then 1 else 0
  {
    assert ArchiveNames(m[n := data]) == ArchiveNames(m) + if n.Archived? then {n} else {};
  }

  lemma ReadNext(all: Listing, parse: Parser, left: set<FileName>, bytes: int, files: Files, n: FileName)
    requires ReadBut(all, parse, left, bytes, files) && n in left
    ensures Admits(parse, bytes, files, n, all[n]) ==>
              ReadBut(all, parse, left - {n}, bytes + |all[n]|,
                      if n.Archived? then files[n := Snapshot(parse(all[n]).value, all[n])] else files)
    ensures !Admits(parse, bytes, files, n, all[n]) ==> !Listable(all, parse)
  {
    var seen, data := Without(all, left), all[n];
    var next := Without(all, left - {n});
    assert next == seen[n := data];
    NamesRead(seen, parse);
    NamesInsert(seen, n, data);
    SizeInsert(seen, n, data);
    SizePart(all, next);
    if Admits(parse, bytes, files, n, data) {
      ReadInsert(seen, n, data, parse);
    }
  }

  lemma ReadInsert(m: Listing, n: FileName, data: Bytes, parse: Parser)
    requires n !in m
    ensures n.Archived? && Recognised(parse, n, data) ==>
              ReadFiles(m[n := data], parse) == ReadFiles(m, parse)[n := Snapshot(parse(data).value, data)]
    ensures !n.Archived? ==> ReadFiles(m[n := data], parse) == ReadFiles(m, parse)
  {
  }

  lemma ReadStart(all: Listing, parse: Parser)
    ensures ReadBut(all, parse, all.Keys, 0, map[])
  {
    assert Without(all, all.Keys) == map[];
    assert Sizes(map[]) == map[];
  }

  lemma ReadDone(all: Listing, parse: Parser, bytes: int, files: Files)
    requires ReadBut(all, parse, {}, bytes, files) && |all| <= MAX_ENTRIES
    ensures Listable(all, parse) && bytes == Size(all) && files == ReadFiles(all, parse)
  {
    assert Without(all, {}) == all;
  }

  /** Lists the archive; fails exactly when a limit or a file is not acceptable. */
  method ReadArchive(dir: Directory, parse: Parser) returns (r: Option<Inventory>)
    requires dir.Valid()
    ensures r.Some? <==> Listable(Contents(dir.disk), parse)
    ensures r.Some? ==> r.value.files == ReadFiles(Contents(dir.disk), parse)
    ensures r.Some? ==> r.value.entries == |Contents(dir.disk)| && r.value.bytes == Size(Contents(dir.disk))
  {
    var view := dir.disk.View();
    ghost var all := Contents(dir.disk);
    ContentsNames(dir.disk);
    if |view| > MAX_ENTRIES {
      return None;
    }
    var bytes, files: Files := 0, map[];
    ReadStart(all, parse);
    var left := view.Keys;
    while left != {}
      invariant ReadBut(all, parse, left, bytes, files) && left <= view.Keys
    {
      var name :| name in left;
      var read := dir.Read(name);
      var data := read.value;
      assert data == all[name];
      ReadNext(all, parse, left, bytes, files, name);
      if !Admits(parse, bytes, files, name, data) {
        return None;
      }
      bytes := bytes + |data|;
      if name.Archived? {
        files := files[name := Snapshot(parse(data).value, data)];
      }
      left := left - {name};
    }
    ReadDone(all, parse, bytes, files);
    SizeNonnegative(all);
    return Some(Inventory(files, |view|, bytes));
  }

  // ----- recovering from a crash

  /** Everything durable, nothing half-written. */
  ghost predicate Clean(d: Disk) {
    d.Valid() && d.pending == [] && forall n :: n in d.durable ==> d.files[d.durable[n]].synced
  }

  lemma CleanOutcome(d: Disk, m: Listing)
    requires Clean(d) && CrashOutcome(d, m)
    ensures m == Contents(d)
  {
    ViewValid(d);
    assert d.View() == d.durable;
  }

  function BatchOf(plan: Plan): Batch {
    Batch(Data(plan.writes), plan.remove)
  }

  /** Canonical encodings parse back to their documents. */
  ghost predicate RoundTrips(parse: Parser, input: seq<Envelope>) {
    forall k :: 0 <= k < |input| && input[k].encoding.Some? ==> parse(input[k].encoding.value) == Some(input[k])
  }

  lemma WritesRecognised(files: Files, input: seq<Envelope>, keep: nat, now: int, parse: Parser, n: FileName)
    requires Encodable(files, input, now) && RoundTrips(parse, input) && n in PlanOf(files, input, keep, now).writes
    ensures Recognised(parse, n, PlanOf(files, input, keep, now).writes[n].data)
    ensures parse(PlanOf(files, input, keep, now).writes[n].data) == Some(PlanOf(files, input, keep, now).writes[n].doc)
  {
    SelectedEncoded(files, input, now, n);
  }

  /** What the next run finds: within every limit, and every archived file either
      as it was or as planned. */
  lemma ReachedListing(m0: Listing, m: Listing, current: Inventory, input: seq<Envelope>, keep: nat, now: int,
      parse: Parser)
    requires Listable(m0, parse) && current.files == ReadFiles(m0, parse)
    requires Encodable(current.files, input, now) && RoundTrips(parse, input)
    requires Explains(BatchOf(PlanOf(current.files, input, keep, now)), m0, m)
    ensures Reached(current.files, PlanOf(current.files, input, keep, now), ReadFiles(m, parse))
    ensures forall n: FileName :: n in m && n.Unrelated? ==> !n.json
    ensures forall n: FileName :: n in m && n.Archived? ==> Recognised(parse, n, m[n])
    ensures ArchiveNames(m) <= current.files.Keys + PlanOf(current.files, input, keep, now).writes.Keys
  {
    var plan := PlanOf(current.files, input, keep, now);
    forall n: FileName | !n.Stage?
      ensures n in m ==> !(n.Unrelated? && n.json) && (n.Archived? ==> Recognised(parse, n, m[n]))
      ensures n in m && n.Archived? ==> n in current.files || n in plan.writes
      ensures || Lookup(ReadFiles(m, parse), n) == Lookup(current.files, n)
              || (n in plan.writes && Lookup(ReadFiles(m, parse), n) == Some(plan.writes[n]))
              || (n in plan.remove && n !in ReadFiles(m, parse))
    {
      if n in plan.writes {
        WritesRecognised(current.files, input, keep, now, parse, n);
      }
    }
  }

  /** A crash at any moment of an accepted run leaves a directory the next run can
      list, and from there the rules ask for the same final archive. */
  lemma NextRunConverges(d0: Disk, d: Disk, m: Listing, current: Inventory, input: seq<Envelope>, keep: nat, now: int,
                         valid: set<Envelope> -> bool, parse: Parser)
    requires Clean(d0) && Listable(Contents(d0), parse)
    requires current.files == ReadFiles(Contents(d0), parse)
    requires current.entries == |Contents(d0)| && current.bytes == Size(Contents(d0))
    requires Acceptable(current, input, keep, now, valid) && RoundTrips(parse, input)
    requires AllSafe(d0, [d], BatchOf(PlanOf(current.files, input, keep, now))) && CrashOutcome(d, m)
    ensures Listable(m, parse)
    ensures Reached(current.files, PlanOf(current.files, input, keep, now), ReadFiles(m, parse))
    ensures Kept(ReadFiles(m, parse), input, keep, now) == Kept(current.files, input, keep, now)
  {
    var plan := PlanOf(current.files, input, keep, now);
    assert d in [d];
    OutcomeExplained(d0, d, BatchOf(plan), m);
    ReachedListing(Contents(d0), m, current, input, keep, now, parse);
    OutcomeLimits(d0, d, current, plan, m);
    SubsetSize(ArchiveNames(m), current.files.Keys + plan.writes.Keys);
    KeptAfter(current.files, input, keep, now, ReadFiles(m, parse));
  }

  lemma OutcomeExplained(d0: Disk, d: Disk, plan: Batch, m: Listing)
    requires Clean(d0) && CrashSafe(d0, d, plan) && CrashOutcome(d, m)
    ensures Explains(plan, Contents(d0), m)
  {
    var m0 :| CrashOutcome(d0, m0) && Explains(plan, m0, m);
    CleanOutcome(d0, m0);
  }

  lemma OutcomeLimits(d0: Disk, d: Disk, current: Inventory, plan: Plan, m: Listing)
    requires Clean(d0) && current.entries == |Contents(d0)| && current.bytes == Size(Contents(d0))
    requires Bounded(d, MostBytes(d0) + Size(Data(plan.writes)), MostEntries(d0) + |Data(plan.writes)|)
    requires WithinBudget(current, plan) && CrashOutcome(d, m)
    ensures |m| <= MAX_ENTRIES && Size(m) <= MAX_INPUT_BYTES
  {
    OutcomeBounded(d, m);
    CleanBound(d0);
    DataCount(plan.writes);
  }

  lemma DataCount(files: Files)
    ensures |Data(files)| == |files|
  {
    assert |Data(files)| == |Data(files).Keys| && |files| == |files.Keys|;
    assert Data(files).Keys == files.Keys;
  }

  /** One sequence per slot in the source, which is what a collector directory holds. */
  ghost predicate OneSequencePerSlot(input: seq<Envelope>, now: int) {
    forall i, j :: 0 <= i < |input| && 0 <= j < |input| ==> !Mixed(input[i], input[j], now)
  }

  /** With one sequence per slot no rerun is rejected as stale, wherever it resumes. */
  lemma NextRunNotStale(files: Files, input: seq<Envelope>, keep: nat, now: int, after: Files)
    requires OneSequencePerSlot(input, now) && !Stale(files, input, now)
    requires Reached(files, PlanOf(files, input, keep, now), after)
    ensures !Stale(after, input, now)
  {
    forall k | 0 <= k < |input| ensures !OlderThanArchived(after, input[k], now) {
      var n := ArchiveName(input[k]);
      assert !OlderThanArchived(files, input[k], now);
      if n in PlanOf(files, input, keep, now).writes && Lookup(after, n) == Some(PlanOf(files, input, keep, now).writes[n]) {
        SelectedNewest(files, input, now, n);
        if j :| 0 <= j < |input| && FirstAt(input, now, n, after[n], j) {
          assert !Mixed(input[k], input[j], now);
        }
      }
    }
  }

  lemma BatchValid(files: Files, input: seq<Envelope>, keep: nat, now: int)
    requires Named(files)
    ensures BatchOf(PlanOf(files, input, keep, now)).Valid(Data(files))
  {
    SelectionKeepsNames(files, input, now);
  }

  /** Reading the installed directory gives the kept snapshots. */
  lemma InstalledFilesAre(m0: Listing, input: seq<Envelope>, keep: nat, now: int, parse: Parser)
    requires Encodable(ReadFiles(m0, parse), input, now) && RoundTrips(parse, input) && Listable(m0, parse)
    ensures var plan := PlanOf(ReadFiles(m0, parse), input, keep, now);
      ReadFiles(BatchOf(plan).Install(m0), parse) == Kept(ReadFiles(m0, parse), input, keep, now)
  {
    var files := ReadFiles(m0, parse);
    var plan := PlanOf(files, input, keep, now);
    var got, want := ReadFiles(BatchOf(plan).Install(m0), parse), plan.Install(files);
    forall n: FileName ensures Lookup(got, n) == Lookup(want, n) {
      if n in plan.writes {
        WritesRecognised(files, input, keep, now, parse, n);
      }
      InstalledName(m0, plan, parse, n);
    }
    SameLookup(got, want);
    InstalledIsKept(files, input, keep, now);
  }

  lemma InstalledName(m0: Listing, plan: Plan, parse: Parser, n: FileName)
    requires n in plan.writes ==>
      (Recognised(parse, n, plan.writes[n].data) && parse(plan.writes[n].data) == Some(plan.writes[n].doc))
    ensures Lookup(ReadFiles(BatchOf(plan).Install(m0), parse), n) == Lookup(plan.Install(ReadFiles(m0, parse)), n)
  {
  }

  /** The archive is exactly what the rules ask for of the archive it was. */
  ghost predicate Completed(m0: Listing, m: Listing, input: seq<Envelope>, keep: int, now: int, parse: Parser) {
    1 <= keep && Listable(m0, parse) && ReadFiles(m, parse) == Kept(ReadFiles(m0, parse), input, keep, now)
  }

  /** An accepted run that crashed: where it started, what it listed, the state it reached
      and what the crash left of that. */
  datatype Attempt = Attempt(start: Disk, current: Inventory, reached: Disk, left: Listing)

  ghost predicate Interrupted(a: Attempt, input: seq<Envelope>, keep: nat, now: int, valid: set<Envelope> -> bool, parse: Parser) {
    && Clean(a.start) && Listable(Contents(a.start), parse) && a.current.files == ReadFiles(Contents(a.start), parse)
    && a.current.entries == |Contents(a.start)| && a.current.bytes == Size(Contents(a.start))
    && Acceptable(a.current, input, keep, now, valid)
    && AllSafe(a.start, [a.reached], BatchOf(PlanOf(a.current.files, input, keep, now))) && CrashOutcome(a.reached, a.left)
  }

  /** Each attempt starts from what the crash before it left. */
  ghost predicate Retried(attempts: seq<Attempt>, input: seq<Envelope>, keep: nat, now: int, valid: set<Envelope> -> bool, parse: Parser) {
    && (forall i :: 0 <= i < |attempts| ==> Interrupted(attempts[i], input, keep, now, valid, parse))
    && (forall i :: 1 <= i < |attempts| ==> Contents(attempts[i].start) == attempts[i-1].left)
  }

  /** However many runs crash, at whatever moment: the first run that completes leaves the
      archive that the very first one was for. */
  lemma {:induction false} CrashesConverge(attempts: seq<Attempt>, input: seq<Envelope>, keep: nat, now: int,
      valid: set<Envelope> -> bool, parse: Parser, m: Listing)
    requires attempts != [] && Retried(attempts, input, keep, now, valid, parse) && RoundTrips(parse, input)
    requires Completed(attempts[|attempts| - 1].left, m, input, keep, now, parse)
    ensures Completed(Contents(attempts[0].start), m, input, keep, now, parse)
    decreases |attempts|
  {
    hide Interrupted, Acceptable, AllSafe, CrashOutcome, Clean, Kept, ReadFiles, Listable, RoundTrips;
    var n := |attempts| - 1;
    CrashConverges(attempts[n], input, keep, now, valid, parse, m);
    if n > 0 {
      CrashesConverge(attempts[..n], input, keep, now, valid, parse, m);
    }
  }

  lemma CrashConverges(a: Attempt, input: seq<Envelope>, keep: nat, now: int, valid: set<Envelope> -> bool, parse: Parser, m: Listing)
    requires Interrupted(a, input, keep, now, valid, parse) && RoundTrips(parse, input)
    requires Completed(a.left, m, input, keep, now, parse)
    ensures Completed(Contents(a.start), m, input, keep, now, parse)
  {
    NextRunConverges(a.start, a.reached, a.left, a.current, input, keep, now, valid, parse);
    hide Acceptable, AllSafe, CrashOutcome, Clean, Kept, ReadFiles, Listable;
  }

  /** What a run finds in the directory. */
  ghost function Found(m: Listing, parse: Parser): (r: Inventory)
    ensures r.files == ReadFiles(m, parse) && r.entries == |m| && r.bytes == Size(m)
  {
    SizeNonnegative(m);
    Inventory(ReadFiles(m, parse), |m|, Size(m))
  }

  /** Nothing stands in the way of a run over this directory. */
  ghost predicate Runnable(m: Listing, input: seq<Envelope>, keep: int, now: int, valid: set<Envelope> -> bool,
      parse: Parser) {
    && 1 <= keep <= 384 && 0 <= now && valid(set d | d in input)
    && Listable(m, parse) && Acceptable(Found(m, parse), input, keep, now, valid)
  }

  /** A directory that can be listed is as it was read. */
  lemma ListedReady(m: Listing, plan: Plan, parse: Parser)
    requires Listable(m, parse) && forall n :: n in plan.writes ==> n.Archived?
    ensures Ready(m, Data(ReadFiles(m, parse)), BatchOf(plan))
  {
  }

  /** One run of the helper: list, plan, install. It succeeds exactly when no operation on
      the directory failed and nothing stands in its way; then the archive is exactly what
      the rules ask for. Otherwise every file is as it was or as planned, and without a
      failed operation everything is as it was. */
  method RunArchive(dir: Directory, input: seq<Envelope>, keep: int, now: int, valid: set<Envelope> -> bool,
      parse: Parser)
    returns (ok: bool, ghost steps: seq<Disk>)
    requires dir.Valid() && RoundTrips(parse, input)
    modifies dir
    ensures dir.Valid() && dir.trace == old(dir.trace) + steps
    ensures ok <==> dir.failed == old(dir.failed) && Runnable(old(Contents(dir.disk)), input, keep, now, valid, parse)
    ensures !ok && dir.failed == old(dir.failed) ==> Contents(dir.disk) == old(Contents(dir.disk))
    ensures dir.failed >= old(dir.failed)
    ensures ok ==> Completed(old(Contents(dir.disk)), Contents(dir.disk), input, keep, now, parse)
    ensures var m0, m := old(Contents(dir.disk)), Contents(dir.disk);
      m == m0 || (1 <= keep && Listable(m0, parse) && Explains(BatchOf(PlanOf(ReadFiles(m0, parse), input, keep, now)), m0, m))
    ensures steps == [] || (1 <= keep && AllSafe(old(dir.disk),
              steps, BatchOf(PlanOf(ReadFiles(old(Contents(dir.disk)), parse), input, keep, now))))
  {
    hide Acceptable, Listable, AllSafe, Explains, Kept, RoundTrips, PlanOf, Size, Contents;
    steps, ok := [], false;
    AppendNil(dir.trace);
    if keep < 1 || keep > 384 || now < 0 || !valid(set d | d in input) {
      return;
    }
    var listed := ReadArchive(dir, parse);
    if listed.Some? {
      ok, steps := RunListed(dir, listed.value, input, keep, now, valid, parse);
    }
  }

  /** A run after the directory is listed. */
  method RunListed(dir: Directory, current: Inventory, input: seq<Envelope>, keep: nat, now: int,
      valid: set<Envelope> -> bool, parse: Parser)
    returns (ok: bool, ghost steps: seq<Disk>)
    requires dir.Valid() && RoundTrips(parse, input) && 1 <= keep
    requires Listable(Contents(dir.disk), parse) && current == Found(Contents(dir.disk), parse)
    modifies dir
    ensures dir.Valid() && dir.trace == old(dir.trace) + steps
    ensures ok <==> dir.failed == old(dir.failed) && Acceptable(current, input, keep, now, valid)
    ensures !ok && dir.failed == old(dir.failed) ==> Contents(dir.disk) == old(Contents(dir.disk))
    ensures dir.failed >= old(dir.failed)
    ensures ok ==> Completed(old(Contents(dir.disk)), Contents(dir.disk), input, keep, now, parse)
    ensures var m0, m := old(Contents(dir.disk)), Contents(dir.disk);
      m == m0 || Explains(BatchOf(PlanOf(current.files, input, keep, now)), m0, m)
    ensures steps == [] || AllSafe(old(dir.disk), steps, BatchOf(PlanOf(current.files, input, keep, now)))
  {
    hide Listable, AllSafe, Explains, Ready, Kept, RoundTrips, PlanOf, Size, Contents;
    steps, ok := [], false;
    AppendNil(dir.trace);
    var planned := PlanArchive(current, input, keep, now, valid);
    if planned.Some? {
      var plan := planned.value;
      ghost var m0 := Contents(dir.disk);
      BatchValid(current.files, input, keep, now);
      ListedReady(m0, plan, parse);
      ok, steps := InstallPlan(dir, Data(current.files), BatchOf(plan));
      InstalledFilesAre(m0, input, keep, now, parse);
    }
  }
}
