/** The archive directory as a crash sees it: durable entries, directory changes
    the kernel has not been told to persist yet, and file contents that may or
    may not have been synced. */
module ArchiveDisk {
  import opened Common

  /** A name the helper owns (window start and keyed slot), a staging name, or
      anything else; `json` tells whether an unrelated name ends in ".json". */
  datatype FileName =
    | Archived(start: nat, slot: string)
    | Stage(nonce: nat)
    | Unrelated(text: string, json: bool)

  type Entries = map<FileName, nat>
  type Listing = map<FileName, Bytes>

  datatype File = File(data: Bytes, synced: bool)

  datatype Op =
    | Link(name: FileName, inode: nat)
    | Rename(from: FileName, to: FileName)
    | Unlink(name: FileName)

  /** `pending` are the directory changes made since the last directory sync. */
  datatype Disk = Disk(files: map<nat, File>, durable: Entries, pending: seq<Op>) {

    ghost predicate Valid() {
      && durable.Values <= files.Keys
      && forall k :: 0 <= k < |pending| && pending[k].Link? ==> pending[k].inode in files
    }

    /** What a running program sees: every change applied. */
    function View(): Entries {
      Replay(durable, pending, seq(|pending|, _ => true))
    }

    function Then(op: Op): Disk {
      this.(pending := pending + [op])
    }

    function Synced(): Disk {
      this.(durable := View(), pending := [])
    }
  }

  /** One atomic directory change. A rename whose source never became durable
      has nothing to move. */
  function Apply(op: Op, dir: Entries): Entries {
    match op
    case Link(n, i) => dir[n := i]
    case Rename(from, to) => if from in dir then (dir - {from})[to := dir[from]] else dir
    case Unlink(n) => dir - {n}
  }

  /** The directory after a crash that keeps exactly the changes marked in `kept`. */
  function Replay(dir: Entries, ops: seq<Op>, kept: seq<bool>): Entries
    requires |kept| == |ops|
  {
    if ops == [] then dir
    else
      var last := |ops| - 1;
      var before := Replay(dir, ops[..last], kept[..last]);
      if kept[last] then Apply(ops[last], before) else before
  }

  /** Synced contents survive; of unsynced contents anything up to their size may. */
  predicate SurvivesAs(file: File, data: Bytes) {
    if file.synced then data == file.data else |data| <= |file.data|
  }

  ghost predicate Holds(files: map<nat, File>, dir: Entries, m: Listing) {
    && m.Keys == dir.Keys
    && forall n :: n in dir ==> dir[n] in files && SurvivesAs(files[dir[n]], m[n])
  }

  ghost predicate KeptBy(d: Disk, kept: seq<bool>, m: Listing) {
    |kept| == |d.pending| && Holds(d.files, Replay(d.durable, d.pending, kept), m)
  }

  /** `m` is a directory a crash of `d` can leave: any subset of the unsynced
      directory changes, applied in order. */
  ghost predicate CrashOutcome(d: Disk, m: Listing) {
    exists kept :: KeptBy(d, kept, m)
  }

  // ----- replaying

  lemma {:induction false} ReplayValid(d: Disk, kept: seq<bool>, k: nat)
    requires d.Valid() && |kept| == |d.pending| && k <= |kept|
    ensures Replay(d.durable, d.pending[..k], kept[..k]).Values <= d.files.Keys
  {
    if k > 0 {
      ReplayValid(d, kept, k - 1);
      assert d.pending[..k][..k-1] == d.pending[..k-1] && kept[..k][..k-1] == kept[..k-1];
    }
  }

  lemma ViewValid(d: Disk)
    requires d.Valid()
    ensures d.View().Values <= d.files.Keys
  {
    var kept := seq(|d.pending|, _ => true);
    ReplayValid(d, kept, |kept|);
    assert d.pending[..|kept|] == d.pending && kept[..|kept|] == kept;
  }

  /** Replaying one change more. */
  lemma ReplayAppend(dir: Entries, ops: seq<Op>, op: Op, kept: seq<bool>, keep: bool)
    requires |kept| == |ops|
    ensures Replay(dir, ops + [op], kept + [keep])
         == if keep then Apply(op, Replay(dir, ops, kept)) else Replay(dir, ops, kept)
  {
    assert (ops + [op])[..|ops|] == ops && (kept + [keep])[..|ops|] == kept;
  }

  lemma ViewThen(d: Disk, op: Op)
    ensures d.Then(op).View() == Apply(op, d.View())
  {
    ReplayAppend(d.durable, d.pending, op, seq(|d.pending|, _ => true), true);
    assert seq(|d.pending| + 1, _ => true) == seq(|d.pending|, _ => true) + [true];
  }

  // ----- sizes

  /** What the entries of `dir` weigh when inode `i` weighs `cap[i]`. */
  ghost function Weight(cap: map<nat, nat>, dir: Entries): int
    requires dir.Values <= cap.Keys
  {
    Total(Weights(cap, dir))
  }

  ghost function Weights(cap: map<nat, nat>, dir: Entries): map<FileName, int>
    requires dir.Values <= cap.Keys
  {
    map n | n in dir :: cap[dir[n]]
  }

  ghost function LinkWeight(cap: map<nat, nat>, ops: seq<Op>): nat
    requires forall k :: 0 <= k < |ops| && ops[k].Link? ==> ops[k].inode in cap
  {
    if ops == [] then 0
    else
      var last := ops[|ops| - 1];
      LinkWeight(cap, ops[..|ops| - 1]) + if last.Link? then cap[last.inode] else 0
  }

  lemma {:induction false} ApplyWeight(cap: map<nat, nat>, op: Op, dir: Entries)
    requires dir.Values <= cap.Keys && (op.Link? ==> op.inode in cap)
    ensures Apply(op, dir).Values <= cap.Keys
    ensures Weight(cap, Apply(op, dir)) <= Weight(cap, dir) + LinkWeight(cap, [op])
  {
    assert LinkWeight(cap, [op]) == LinkWeight(cap, []) + if op.Link? then cap[op.inode] else 0 by {
      assert [op][..0] == [];
    }
    var w, w' := Weights(cap, dir), Weights(cap, Apply(op, dir));
    match op {
      case Link(n, i) =>
        assert w' == w[n := cap[i]];
        TotalInsert(w, n, cap[i]);
      case Rename(from, to) =>
        if from in dir {
          TotalPick(w, from);
          var rest := w - {from};
          TotalInsert(rest, to, w[from]);
          assert w' == rest[to := w[from]];
          assert to in rest ==> rest[to] == cap[dir[to]];
        }
      case Unlink(n) =>
        assert w' == w - {n};
        TotalMonotone(w', w);
    }
  }

  /** No subset of the changes weighs more than the start plus everything linked:
      a rename never adds weight. */
  lemma {:induction false} ReplayWeight(cap: map<nat, nat>, dir: Entries, ops: seq<Op>, kept: seq<bool>)
    requires |kept| == |ops| && dir.Values <= cap.Keys
    requires forall k :: 0 <= k < |ops| && ops[k].Link? ==> ops[k].inode in cap
    ensures Replay(dir, ops, kept).Values <= cap.Keys
    ensures Weight(cap, Replay(dir, ops, kept)) <= Weight(cap, dir) + LinkWeight(cap, ops)
  {
    if ops != [] {
      var last := |ops| - 1;
      ReplayWeight(cap, dir, ops[..last], kept[..last]);
      if kept[last] {
        ApplyWeight(cap, ops[last], Replay(dir, ops[..last], kept[..last]));
        assert [ops[last]][..0] == [];
      }
    }
  }

  function SizesOf(files: map<nat, File>): map<nat, nat> {
    map i | i in files :: |files[i].data|
  }

  function Ones(files: map<nat, File>): map<nat, nat> {
    map i | i in files :: 1
  }

  /** No crash of `d` leaves more bytes than this (lemma OutcomeBounded). */
  ghost function MostBytes(d: Disk): int
    requires d.Valid()
  {
    Weight(SizesOf(d.files), d.durable) + LinkWeight(SizesOf(d.files), d.pending)
  }

  /** No crash of `d` leaves more entries than this. */
  ghost function MostEntries(d: Disk): int
    requires d.Valid()
  {
    Weight(Ones(d.files), d.durable) + LinkWeight(Ones(d.files), d.pending)
  }

  ghost predicate Bounded(d: Disk, bytes: int, entries: int) {
    d.Valid() && MostBytes(d) <= bytes && MostEntries(d) <= entries
  }

  ghost function Size(m: Listing): int {
    Total(Sizes(m))
  }

  ghost function Sizes(m: Listing): map<FileName, int> {
    map n | n in m :: |m[n]|
  }

  /** Under unit weights a directory weighs its number of entries. */
  lemma {:induction false} OnesWeight(files: map<nat, File>, dir: Entries)
    requires dir.Values <= files.Keys
    ensures Weight(Ones(files), dir) == |dir|
    decreases |dir|
  {
    var w := Weights(Ones(files), dir);
    if dir != map[] {
      var n :| n in dir;
      assert dir.Keys == (dir - {n}).Keys + {n};
      TotalPick(w, n);
      OnesWeight(files, dir - {n});
      assert w - {n} == Weights(Ones(files), dir - {n});
    }
  }

  lemma HeldWeight(files: map<nat, File>, dir: Entries, m: Listing)
    requires Holds(files, dir, m) && dir.Values <= files.Keys
    ensures Size(m) <= Weight(SizesOf(files), dir)
  {
    TotalMonotone(Sizes(m), Weights(SizesOf(files), dir));
  }

  lemma OutcomeBounded(d: Disk, m: Listing)
    requires d.Valid() && CrashOutcome(d, m)
    ensures Size(m) <= MostBytes(d) && |m| <= MostEntries(d)
  {
    var kept :| KeptBy(d, kept, m);
    var dir := Replay(d.durable, d.pending, kept);
    ReplayWeight(SizesOf(d.files), d.durable, d.pending, kept);
    HeldWeight(d.files, dir, m);
    ReplayWeight(Ones(d.files), d.durable, d.pending, kept);
    OnesWeight(d.files, dir);
    assert |m.Keys| == |dir.Keys|;
  }

  /** Renaming and removing add nothing, nor does syncing. */
  lemma ChangeKeepsBound(d: Disk, op: Op)
    requires d.Valid() && !op.Link?
    ensures d.Then(op).Valid()
    ensures MostBytes(d.Then(op)) == MostBytes(d) && MostEntries(d.Then(op)) == MostEntries(d)
  {
    assert d.Then(op).pending[..|d.pending|] == d.pending;
  }

  lemma SyncKeepsBound(d: Disk)
    requires d.Valid()
    ensures d.Synced().Valid()
    ensures MostBytes(d.Synced()) <= MostBytes(d) && MostEntries(d.Synced()) <= MostEntries(d)
  {
    var kept := seq(|d.pending|, _ => true);
    ViewValid(d);
    ReplayWeight(SizesOf(d.files), d.durable, d.pending, kept);
    ReplayWeight(Ones(d.files), d.durable, d.pending, kept);
  }

  /** Linking a new file adds one entry and its contents, whatever they are. */
  lemma LinkBound(start: Disk, name: FileName, inode: nat, file: File)
    requires start.Valid() && inode !in start.files
    ensures var d := start.(files := start.files[inode := file]).Then(Link(name, inode));
      d.Valid() && MostBytes(d) == MostBytes(start) + |file.data| && MostEntries(d) == MostEntries(start) + 1
  {
    var d := start.(files := start.files[inode := file]).Then(Link(name, inode));
    LinkAdds(start, d, SizesOf(start.files), SizesOf(d.files));
    LinkAdds(start, d, Ones(start.files), Ones(d.files));
  }

  lemma LinkAdds(start: Disk, d: Disk, cap: map<nat, nat>, cap': map<nat, nat>)
    requires start.Valid() && d.durable == start.durable && d.pending != []
    requires d.pending[..|d.pending| - 1] == start.pending
    requires var last := d.pending[|d.pending| - 1]; last.Link? && last.inode in cap'
    requires start.files.Keys <= cap.Keys && start.files.Keys <= cap'.Keys
    requires forall i :: i in start.files ==> cap[i] == cap'[i]
    ensures Weight(cap', d.durable) + LinkWeight(cap', d.pending)
         == Weight(cap, start.durable) + LinkWeight(cap, start.pending) + cap'[d.pending[|d.pending| - 1].inode]
  {
    LinkWeightSame(cap, cap', start);
    assert Weights(cap', start.durable) == Weights(cap, start.durable);
  }

  lemma LinkWeightSame(cap: map<nat, nat>, cap': map<nat, nat>, d: Disk)
    requires d.Valid() && d.files.Keys <= cap.Keys && d.files.Keys <= cap'.Keys
    requires forall i :: i in d.files ==> cap[i] == cap'[i]
    ensures LinkWeight(cap, d.pending) == LinkWeight(cap', d.pending)
  {
    for k := 0 to |d.pending|
      invariant LinkWeight(cap, d.pending[..k]) == LinkWeight(cap', d.pending[..k])
    {
      assert d.pending[..k+1][..k] == d.pending[..k];
    }
    assert d.pending[..|d.pending|] == d.pending;
  }

  /** A synced directory is bounded by exactly what it holds. */
  lemma CleanBound(d: Disk)
    requires d.Valid() && d.pending == []
    ensures MostBytes(d) == Size(Contents(d)) && MostEntries(d) == |Contents(d)|
  {
    var held := Contents(d);
    ViewValid(d);
    assert d.View() == d.durable;
    OnesWeight(d.files, d.durable);
    assert held.Keys == d.durable.Keys && |held| == |held.Keys| == |d.durable.Keys|;
    forall n | n in held ensures Weights(SizesOf(d.files), d.durable)[n] == Sizes(held)[n] {
      assert held[n] == d.files[d.durable[n]].data;
    }
    assert Weights(SizesOf(d.files), d.durable) == Sizes(held);
  }

  /** What a running program reads. */
  ghost function Contents(d: Disk): Listing
    requires d.Valid()
  {
    ViewValid(d);
    map n | n in d.View() :: d.files[d.View()[n]].data
  }

  lemma ContentsNames(d: Disk)
    requires d.Valid()
    ensures Contents(d).Keys == d.View().Keys && |Contents(d)| == |d.View()|
  {
    ViewValid(d);
    assert |Contents(d)| == |Contents(d).Keys| && |d.View()| == |d.View().Keys|;
  }

  // ----- the directory as an object

  /** The directory. `trace` collects every state it has been in, so that a
      contract can speak about a crash at any moment. Each operation either
      happens as a whole or fails and leaves the directory alone; `failed` counts
      those that failed. */
  class Directory {
    var disk: Disk
    ghost var trace: seq<Disk>
    ghost var failed: nat

    ghost predicate Valid()
      reads this
    {
      disk.Valid() && |trace| > 0 && trace[|trace| - 1] == disk
    }

    constructor (disk: Disk)
      requires disk.Valid()
      ensures Valid() && this.disk == disk && trace == [disk] && failed == 0
    {
      this.disk := disk;
      trace, failed := [disk], 0;
    }

    method Read(name: FileName) returns (r: Option<Bytes>)
      requires Valid()
      ensures r == if name in disk.View()
                   then ViewValid(disk); Some(disk.files[disk.View()[name]].data) else None
    {
      ViewValid(disk);
      var view := disk.View();
      r := if name in view then Some(disk.files[view[name]].data) else None;
    }

    /** Creates a new empty file; fails when the name exists. */
    method CreateExclusive(name: FileName) returns (ok: bool, inode: nat)
      requires Valid()
      modifies this
      ensures Valid()
      ensures !ok ==> disk == old(disk) && trace == old(trace)
      ensures ok ==> name !in old(disk.View()) && inode !in old(disk.files)
      ensures ok ==> disk == old(disk).(files := old(disk.files)[inode := File([], false)]).Then(Link(name, inode))
      ensures ok ==> trace == old(trace) + [disk]
      ensures failed == old(failed) + if ok then 0 else 1
    {
      var fails: bool := *;
      inode := Fresh(disk.files.Keys);
      ok := !fails && name !in disk.View();
      failed := failed + if ok then 0 else 1;
      if ok {
        disk := disk.(files := disk.files[inode := File([], false)]).Then(Link(name, inode));
        trace := trace + [disk];
      }
    }

    /** Writes the contents of a new file; a failure leaves some part of them. */
    method Write(inode: nat, data: Bytes) returns (ok: bool, ghost part: Bytes)
      requires Valid() && inode in disk.files
      modifies this
      ensures Valid() && trace == old(trace) + [disk]
      ensures part <= data && (ok ==> part == data)
      ensures disk == old(disk).(files := old(disk.files)[inode := File(part, false)])
      ensures failed == old(failed) + if ok then 0 else 1
    {
      ok := *;
      failed := failed + if ok then 0 else 1;
      var n: nat := |data|;
      if !ok {
        var some: int := *;
        n := if 0 <= some < n then some else n;
      }
      part := data[..n];
      disk := disk.(files := disk.files[inode := File(data[..n], false)]);
      trace := trace + [disk];
    }

    method SyncFile(inode: nat) returns (ok: bool)
      requires Valid() && inode in disk.files
      modifies this
      ensures Valid()
      ensures !ok ==> disk == old(disk) && trace == old(trace)
      ensures ok ==> trace == old(trace) + [disk]
      ensures ok ==> disk == old(disk).(files := old(disk.files)[inode := old(disk.files[inode]).(synced := true)])
      ensures failed == old(failed) + if ok then 0 else 1
    {
      ok := *;
      failed := failed + if ok then 0 else 1;
      if ok {
        disk := disk.(files := disk.files[inode := disk.files[inode].(synced := true)]);
        trace := trace + [disk];
      }
    }

    /** A rename or removal. */
    method Change(op: Op) returns (ok: bool)
      requires Valid() && !op.Link?
      modifies this
      ensures Valid()
      ensures disk == if ok then old(disk).Then(op) else old(disk)
      ensures trace == if ok then old(trace) + [disk] else old(trace)
      ensures failed == old(failed) + if ok then 0 else 1
    {
      ok := *;
      failed := failed + if ok then 0 else 1;
      if ok {
        disk := disk.Then(op);
        trace := trace + [disk];
      }
    }

    /** Makes every change so far durable. */
    method Sync() returns (ok: bool)
      requires Valid()
      modifies this
      ensures Valid()
      ensures disk == if ok then old(disk).Synced() else old(disk)
      ensures trace == if ok then old(trace) + [disk] else old(trace)
      ensures failed == old(failed) + if ok then 0 else 1
    {
      ok := *;
      failed := failed + if ok then 0 else 1;
      if ok {
        ViewValid(disk);
        disk := disk.Synced();
        trace := trace + [disk];
      }
    }
  }

  /** A number outside a finite set. */
  method Fresh(used: set<nat>) returns (n: nat)
    ensures n !in used
  {
    n := 0;
    var seen: set<nat> := {};
    while used - seen != {}
      invariant seen <= used
      invariant forall k: nat :: k in seen ==> k < n
      decreases used - seen
    {
      var k: nat :| k in used - seen;
      n := if k < n then n else k + 1;
      seen := seen + {k};
    }
    assert used == seen + (used - seen);
  }
}
