/** Installing a planned batch: stage, re-check, sync, rename, sync, remove, sync. */
module ArchiveInstall {
  import opened Common
  import opened ArchiveDisk

  /** What the planner asks for: files to write or replace, and files to remove. */
  datatype Batch = Batch(writes: Listing, remove: set<FileName>) {

    ghost predicate Valid(current: Listing) {
      && (forall n :: n in current ==> n.Archived?)
      && (forall n :: n in writes ==> n.Archived?)
      && (forall n :: n in remove ==> n in current && n !in writes)
    }

    function Install(m: Listing): Listing {
      (m - remove) + writes
    }
  }

  /** A file staged for a destination: its staging name and inode. */
  datatype Staged = Staged(name: FileName, inode: nat)

  // ----- crash safety

  /** `m` is `m0` with some of the planned replacements done, and removals only
      if all of them are. Staging files are not considered. */
  ghost predicate Explains(plan: Batch, m0: Listing, m: Listing) {
    && (forall n: FileName :: !n.Stage? ==>
          || Lookup(m, n) == Lookup(m0, n)
          || (n in plan.writes && Lookup(m, n) == Some(plan.writes[n]))
          || (n in plan.remove && n !in m))
    && ((exists n :: n in plan.remove && n in m0 && n !in m) ==>
          forall w :: w in plan.writes ==> Lookup(m, w) == Some(plan.writes[w]))
  }

  /** Whatever a crash of `d` leaves is explained by something a crash at the
      start could have left. */
  ghost predicate CrashSafe(d0: Disk, d: Disk, plan: Batch) {
    forall m :: CrashOutcome(d, m) ==> exists m0 :: CrashOutcome(d0, m0) && Explains(plan, m0, m)
  }

  ghost predicate FilesExtend(d0: Disk, d: Disk) {
    forall i :: i in d0.files ==> i in d.files && d.files[i] == d0.files[i]
  }

  /** Until the first sync only staging names change. */
  ghost predicate Staging(d0: Disk, d: Disk) {
    && d0.Valid() && d.Valid() && FilesExtend(d0, d)
    && d.durable == d0.durable
    && |d0.pending| <= |d.pending| && d.pending[..|d0.pending|] == d0.pending
    && forall k :: |d0.pending| <= k < |d.pending| ==> !d.pending[k].Rename? && d.pending[k].name.Stage?
  }

  ghost predicate Planned(files: map<nat, File>, dir: Entries, plan: Batch, n: FileName) {
    n in plan.writes && n in dir && dir[n] in files && files[dir[n]] == File(plan.writes[n], true)
  }

  ghost predicate AllPlanned(files: map<nat, File>, dir: Entries, plan: Batch) {
    forall w :: w in plan.writes ==> Planned(files, dir, plan, w)
  }

  /** Name `n` in `dir` is as it was in `dir0`, or as the plan wants it; a removal
      counts only if every write is in `base`. */
  ghost predicate Progressed(files: map<nat, File>, dir0: Entries, base: Entries, dir: Entries, plan: Batch,
      n: FileName) {
    || Lookup(dir, n) == Lookup(dir0, n)
    || Planned(files, dir, plan, n)
    || (n in plan.remove && n !in dir && AllPlanned(files, base, plan))
  }

  /** From the first sync on: the durable entries have progressed, and pending
      changes are renames of synced stages or, once every write is durable,
      planned removals. */
  ghost predicate Installing(d0: Disk, d: Disk, plan: Batch) {
    && d0.Valid() && d.Valid() && FilesExtend(d0, d)
    && (forall n: FileName :: !n.Stage? ==> Progressed(d.files, d0.View(), d.durable, d.durable, plan, n))
    && forall k :: 0 <= k < |d.pending| ==> PlannedChange(d, plan, d.pending[k])
  }

  ghost predicate PlannedChange(d: Disk, plan: Batch, op: Op) {
    match op
    case Link(_, _) => false
    case Rename(from, to) =>
      && from.Stage? && to in plan.writes
      && (from in d.durable ==> d.durable[from] in d.files && d.files[d.durable[from]] == File(plan.writes[to], true))
    case Unlink(n) => n.Stage? || (n in plan.remove && AllPlanned(d.files, d.durable, plan))
  }

  lemma {:induction false} ReplayStaging(d0: Disk, d: Disk, kept: seq<bool>, k: nat, n: FileName)
    requires Staging(d0, d) && |kept| == |d.pending| && |d0.pending| <= k <= |d.pending| && !n.Stage?
    ensures Lookup(Replay(d.durable, d.pending[..k], kept[..k]), n)
         == Lookup(Replay(d0.durable, d0.pending, kept[..|d0.pending|]), n)
  {
    if k > |d0.pending| {
      ReplayStaging(d0, d, kept, k - 1, n);
      assert d.pending[..k][..k-1] == d.pending[..k-1] && kept[..k][..k-1] == kept[..k-1];
    }
  }

  lemma {:induction false} ReplayInstalling(d0: Disk, d: Disk, plan: Batch, kept: seq<bool>, k: nat)
    requires Installing(d0, d, plan) && |kept| == |d.pending| && k <= |d.pending|
    requires forall n :: n in plan.writes ==> n.Archived? && n !in plan.remove
    ensures var dir := Replay(d.durable, d.pending[..k], kept[..k]);
      && (forall f: FileName :: f.Stage? && f in dir ==> f in d.durable && dir[f] == d.durable[f])
      && (forall n: FileName :: !n.Stage? ==> Progressed(d.files, d0.View(), d.durable, dir, plan, n))
      && (AllPlanned(d.files, d.durable, plan) ==> AllPlanned(d.files, dir, plan))
  {
    if k > 0 {
      ReplayInstalling(d0, d, plan, kept, k - 1);
      assert d.pending[..k][..k-1] == d.pending[..k-1] && kept[..k][..k-1] == kept[..k-1];
      assert PlannedChange(d, plan, d.pending[k-1]);
    }
  }

  lemma StagingSafe(d0: Disk, d: Disk, plan: Batch, current: Listing)
    requires Staging(d0, d) && plan.Valid(current)
    ensures CrashSafe(d0, d, plan)
  {
    forall m | CrashOutcome(d, m)
      ensures exists m0 :: CrashOutcome(d0, m0) && Explains(plan, m0, m)
    {
      var kept :| KeptBy(d, kept, m);
      var m0 := BeforeStaging(d0, d, kept, m);
      assert Explains(plan, m0, m) by {
        assert forall n :: n in plan.remove ==> Lookup(m, n) == Lookup(m0, n);
      }
    }
  }

  lemma BeforeStaging(d0: Disk, d: Disk, kept: seq<bool>, m: Listing) returns (m0: Listing)
    requires Staging(d0, d) && KeptBy(d, kept, m)
    ensures CrashOutcome(d0, m0)
    ensures forall n: FileName :: !n.Stage? ==> Lookup(m, n) == Lookup(m0, n)
  {
    var kept0 := kept[..|d0.pending|];
    var dir, dir0 := Replay(d.durable, d.pending, kept), Replay(d0.durable, d0.pending, kept0);
    forall n: FileName | !n.Stage?
      ensures Lookup(dir, n) == Lookup(dir0, n)
    {
      ReplayStaging(d0, d, kept, |kept|, n);
      assert d.pending[..|kept|] == d.pending && kept[..|kept|] == kept;
    }
    m0 := SameContents(d0, kept0, dir, m, d.files);
  }

  /** An outcome of `d0` that agrees with `m` wherever the entries agree. */
  lemma SameContents(d0: Disk, kept0: seq<bool>, dir: Entries, m: Listing, files: map<nat, File>) returns (m0: Listing)
    requires d0.Valid() && |kept0| == |d0.pending| && Holds(files, dir, m)
    requires forall i :: i in d0.files ==> i in files && files[i] == d0.files[i]
    ensures CrashOutcome(d0, m0) && m0.Keys == Replay(d0.durable, d0.pending, kept0).Keys
    ensures forall n :: n in m0 && Lookup(dir, n) == Lookup(Replay(d0.durable, d0.pending, kept0), n) ==> Lookup(m, n) == Lookup(m0, n)
  {
    var dir0 := Replay(d0.durable, d0.pending, kept0);
    ReplayValid(d0, kept0, |kept0|);
    assert d0.pending[..|kept0|] == d0.pending && kept0[..|kept0|] == kept0;
    m0 := map n | n in dir0 :: if n in m && dir[n] == dir0[n] then m[n] else d0.files[dir0[n]].data;
    assert KeptBy(d0, kept0, m0);
  }

  lemma InstallingSafe(d0: Disk, d: Disk, plan: Batch, current: Listing)
    requires Installing(d0, d, plan) && plan.Valid(current)
    ensures CrashSafe(d0, d, plan)
  {
    forall m | CrashOutcome(d, m)
      ensures exists m0 :: CrashOutcome(d0, m0) && Explains(plan, m0, m)
    {
      var kept :| KeptBy(d, kept, m);
      var dir, dir0 := Replay(d.durable, d.pending, kept), d0.View();
      var all := seq(|d0.pending|, _ => true);
      var m0 := SameContents(d0, all, dir, m, d.files);
      ReplayInstalling(d0, d, plan, kept, |kept|);
      assert d.pending[..|kept|] == d.pending && kept[..|kept|] == kept;
      ExplainedBy(d0, d, plan, current, dir, m0, m);
    }
  }

  lemma ExplainedBy(d0: Disk, d: Disk, plan: Batch, current: Listing, dir: Entries, m0: Listing, m: Listing)
    requires Installing(d0, d, plan) && plan.Valid(current)
    requires forall n: FileName :: !n.Stage? ==> Progressed(d.files, d0.View(), d.durable, dir, plan, n)
    requires AllPlanned(d.files, d.durable, plan) ==> AllPlanned(d.files, dir, plan)
    requires Holds(d.files, dir, m) && m0.Keys == d0.View().Keys
    requires forall n :: n in m0 && Lookup(dir, n) == Lookup(d0.View(), n) ==> Lookup(m, n) == Lookup(m0, n)
    ensures Explains(plan, m0, m)
  {
    forall n: FileName | !n.Stage?
      ensures || Lookup(m, n) == Lookup(m0, n)
              || (n in plan.writes && Lookup(m, n) == Some(plan.writes[n]))
              || (n in plan.remove && n !in m)
    {
      assert Progressed(d.files, d0.View(), d.durable, dir, plan, n);
    }
    if n :| n in plan.remove && n in m0 && n !in m {
      assert Progressed(d.files, d0.View(), d.durable, dir, plan, n);
      assert AllPlanned(d.files, dir, plan);
      forall w | w in plan.writes ensures Lookup(m, w) == Some(plan.writes[w]) {
        assert Planned(d.files, dir, plan, w);
      }
    }
  }

  // ----- the installer

  ghost predicate Phase(d0: Disk, d: Disk, plan: Batch, bytes: int, entries: int) {
    (Staging(d0, d) || Installing(d0, d, plan)) && Bounded(d, bytes, entries)
  }

  lemma PhaseSafe(d0: Disk, d: Disk, plan: Batch, current: Listing, bytes: int, entries: int)
    requires Phase(d0, d, plan, bytes, entries) && plan.Valid(current)
    ensures CrashSafe(d0, d, plan)
  {
    if Staging(d0, d) {
      StagingSafe(d0, d, plan, current);
    } else {
      InstallingSafe(d0, d, plan, current);
    }
  }

  ghost predicate NoStage(staged: map<FileName, Staged>, n: FileName) {
    forall w :: w in staged ==> staged[w].name != n
  }

  /** What the program sees midway: `v0` with stages added, and some names
      installed or removed. */
  ghost predicate Midway(v0: Entries, v: Entries, staged: map<FileName, Staged>, installed: map<FileName, nat>,
      removed: set<FileName>) {
    && (forall w :: w in staged ==>
          && staged[w].name.Stage? && staged[w].name !in v0
          && Lookup(v, staged[w].name) == Some(staged[w].inode))
    && (forall w, w' :: w in staged && w' in staged && staged[w].name == staged[w'].name ==> w == w')
    && (forall n :: NoStage(staged, n) ==>
          Lookup(v, n) == if n in removed then None
                          else if n in installed then Some(installed[n])
                          else Lookup(v0, n))
  }

  ghost predicate StagedFiles(d: Disk, plan: Batch, staged: map<FileName, Staged>) {
    forall w :: w in staged ==>
      w in plan.writes && staged[w].inode in d.files && d.files[staged[w].inode] == File(plan.writes[w], true)
  }

  /** A state while staging, within a byte and entry bound. */
  ghost predicate StagingWithin(d0: Disk, d: Disk, bytes: int, entries: int) {
    Staging(d0, d) && Bounded(d, bytes, entries)
  }

  /** Creates, writes and syncs one staging file; on failure removes it again. */
  method StageFile(dir: Directory, data: Bytes, ghost d0: Disk, ghost bytes: int, ghost entries: int)
    returns (ok: bool, staged: Staged, ghost steps: seq<Disk>)
    requires dir.Valid() && Staging(d0, dir.disk)
    requires MostBytes(dir.disk) + |data| <= bytes && MostEntries(dir.disk) + 1 <= entries
    modifies dir
    ensures dir.Valid() && dir.trace == old(dir.trace) + steps
    ensures StagingWithin(d0, dir.disk, bytes, entries)
    ensures forall d :: d in steps ==> StagingWithin(d0, d, bytes, entries)
    ensures ok ==> staged.name !in old(dir.disk.View()) && Linked(old(dir.disk), dir.disk, staged, File(data, true))
    ensures ok <==> dir.failed == old(dir.failed)
    ensures dir.failed >= old(dir.failed)
  {
    ghost var start := dir.disk;
    var nonce: int := *;
    var name := Stage(if nonce < 0 then -nonce else nonce);
    var inode;
    ok, inode := dir.CreateExclusive(name);
    staged := Staged(name, inode);
    steps := [];
    if ok {
      ghost var linked := dir.disk;
      ghost var more;
      ok, more := FillFile(dir, staged, data, start, d0, bytes, entries);
      Append3(old(dir.trace), [linked], more);
      steps := [linked] + more;
    }
  }

  /** `d` is `start` with one more file, linked under a staging name. */
  ghost predicate Linked(start: Disk, d: Disk, staged: Staged, file: File) {
    && staged.inode !in start.files && staged.name.Stage?
    && d == start.(files := start.files[staged.inode := file]).Then(Link(staged.name, staged.inode))
  }

  lemma Relinked(start: Disk, d: Disk, staged: Staged, file: File, file': File)
    requires Linked(start, d, staged, file)
    ensures Linked(start, d.(files := d.files[staged.inode := file']), staged, file')
    ensures d.files[staged.inode] == file
  {
    assert d.files[staged.inode := file'] == start.files[staged.inode := file'];
  }

  lemma LinkedFacts(start: Disk, d: Disk, staged: Staged, file: File)
    requires start.Valid() && Linked(start, d, staged, file)
    ensures d.Valid() && d.View() == start.View()[staged.name := staged.inode]
    ensures MostBytes(d) == MostBytes(start) + |file.data| && MostEntries(d) == MostEntries(start) + 1
  {
    LinkBound(start, staged.name, staged.inode, file);
    ViewThen(start.(files := start.files[staged.inode := file]), Link(staged.name, staged.inode));
  }

  lemma LinkedWithin(d0: Disk, start: Disk, d: Disk, staged: Staged, file: File, bytes: int, entries: int)
    requires Staging(d0, start) && Linked(start, d, staged, file)
    requires MostBytes(start) + |file.data| <= bytes && MostEntries(start) + 1 <= entries
    ensures StagingWithin(d0, d, bytes, entries)
  {
    LinkedFacts(start, d, staged, file);
    LinkedStaging(d0, start, d, staged, file);
  }

  lemma LinkedStaging(d0: Disk, start: Disk, d: Disk, staged: Staged, file: File)
    requires Staging(d0, start) && Linked(start, d, staged, file)
    ensures Staging(d0, d)
  {
    assert d.pending[..|d0.pending|] == start.pending[..|d0.pending|];
  }

  method FillFile(dir: Directory, staged: Staged, data: Bytes, ghost start: Disk, ghost d0: Disk,
                  ghost bytes: int, ghost entries: int)
    returns (ok: bool, ghost steps: seq<Disk>)
    requires dir.Valid() && Staging(d0, start) && Linked(start, dir.disk, staged, File([], false))
    requires MostBytes(start) + |data| <= bytes && MostEntries(start) + 1 <= entries
    modifies dir
    ensures dir.Valid() && dir.trace == old(dir.trace) + steps
    ensures StagingWithin(d0, old(dir.disk), bytes, entries)
    ensures StagingWithin(d0, dir.disk, bytes, entries)
    ensures forall d :: d in steps ==> StagingWithin(d0, d, bytes, entries)
    ensures ok ==> Linked(start, dir.disk, staged, File(data, true))
    ensures ok <==> dir.failed == old(dir.failed)
    ensures dir.failed >= old(dir.failed)
  {
    hide Staging, Installing;
    LinkedWithin(d0, start, dir.disk, staged, File([], false), bytes, entries);
    Relinked(start, dir.disk, staged, File([], false), File([], false));
    ghost var d1, part := dir.disk, [];
    ok, part := dir.Write(staged.inode, data);
    Relinked(start, d1, staged, File([], false), File(part, false));
    LinkedWithin(d0, start, dir.disk, staged, File(part, false), bytes, entries);
    steps := [dir.disk];
    ghost var more;
    if ok {
      ok, more := SyncStage(dir, staged, data, start, d0, bytes, entries);
      Append3(old(dir.trace), steps, more);
      steps := steps + more;
    }
    if !ok {
      DroppedStage(d0, dir.disk, Batch(map[], {}), staged.name, bytes, entries);
      more := RemoveStage(dir, staged);
      Append3(old(dir.trace), steps, more);
      steps := steps + more;
    }
  }

  method SyncStage(dir: Directory, staged: Staged, ghost data: Bytes, ghost start: Disk, ghost d0: Disk,
                   ghost bytes: int, ghost entries: int)
    returns (ok: bool, ghost steps: seq<Disk>)
    requires dir.Valid() && Staging(d0, start) && Linked(start, dir.disk, staged, File(data, false))
    requires MostBytes(start) + |data| <= bytes && MostEntries(start) + 1 <= entries
    modifies dir
    ensures dir.Valid() && dir.trace == old(dir.trace) + steps
    ensures StagingWithin(d0, dir.disk, bytes, entries)
    ensures forall d :: d in steps ==> StagingWithin(d0, d, bytes, entries)
    ensures ok ==> Linked(start, dir.disk, staged, File(data, true))
    ensures ok <==> dir.failed == old(dir.failed)
    ensures dir.failed >= old(dir.failed)
  {
    LinkedWithin(d0, start, dir.disk, staged, File(data, false), bytes, entries);
    Relinked(start, dir.disk, staged, File(data, false), File(data, true));
    ok := dir.SyncFile(staged.inode);
    steps := [];
    if ok {
      steps := [dir.disk];
      LinkedWithin(d0, start, dir.disk, staged, File(data, true), bytes, entries);
    }
  }

  /** Removes a staging file if its name still refers to it. */
  method RemoveStage(dir: Directory, staged: Staged) returns (ghost steps: seq<Disk>)
    requires dir.Valid()
    modifies dir
    ensures dir.Valid() && dir.trace == old(dir.trace) + steps
    ensures || (dir.disk == old(dir.disk) && steps == [])
            || (dir.disk == old(dir.disk).Then(Unlink(staged.name)) && steps == [dir.disk])
    ensures dir.failed == old(dir.failed) && Lookup(old(dir.disk.View()), staged.name) == Some(staged.inode) ==>
              dir.disk == old(dir.disk).Then(Unlink(staged.name))
    ensures dir.failed >= old(dir.failed)
  {
    AppendNil(dir.trace);
    steps := [];
    if Lookup(dir.disk.View(), staged.name) == Some(staged.inode) {
      var ok := dir.Change(Unlink(staged.name));
      steps := if ok then [dir.disk] else [];
    }
  }

  lemma DroppedStage(d0: Disk, d: Disk, plan: Batch, name: FileName, bytes: int, entries: int)
    requires Phase(d0, d, plan, bytes, entries) && name.Stage?
    ensures Phase(d0, d.Then(Unlink(name)), plan, bytes, entries)
    ensures Staging(d0, d) ==> Staging(d0, d.Then(Unlink(name)))
    ensures Installing(d0, d, plan) ==> Installing(d0, d.Then(Unlink(name)), plan)
  {
    ChangeKeepsBound(d, Unlink(name));
    var d' := d.Then(Unlink(name));
    if Staging(d0, d) {
      assert d'.pending[..|d0.pending|] == d.pending[..|d0.pending|];
    } else {
      StillInstalling(d0, d, plan, Unlink(name));
    }
    if Installing(d0, d, plan) {
      StillInstalling(d0, d, plan, Unlink(name));
    }
  }

  lemma StillInstalling(d0: Disk, d: Disk, plan: Batch, op: Op)
    requires Installing(d0, d, plan) && PlannedChange(d, plan, op)
    ensures Installing(d0, d.Then(op), plan)
  {
    var d' := d.Then(op);
    forall k | 0 <= k < |d'.pending| ensures PlannedChange(d', plan, d'.pending[k]) {
      assert PlannedChange(d, plan, d'.pending[k]);
    }
  }

  /** Stages every planned file. */
  method StageAll(dir: Directory, plan: Batch, ghost d0: Disk, ghost bytes: int, ghost entries: int)
    returns (ok: bool, staged: map<FileName, Staged>, ghost steps: seq<Disk>)
    requires dir.Valid() && dir.disk == d0
    requires MostBytes(d0) + Size(plan.writes) <= bytes && MostEntries(d0) + |plan.writes| <= entries
    modifies dir
    ensures dir.Valid() && dir.trace == old(dir.trace) + steps
    ensures StagingWithin(d0, dir.disk, bytes, entries)
    ensures forall d :: d in steps ==> StagingWithin(d0, d, bytes, entries)
    ensures ok ==> StagedSoFar(d0, dir.disk, plan, staged, {})
    ensures forall w :: w in staged ==> staged[w].name.Stage?
    ensures plan.writes == map[] ==> ok && steps == [] && dir.disk == d0
    ensures ok <==> dir.failed == old(dir.failed)
    ensures dir.failed >= old(dir.failed)
  {
    AppendNil(dir.trace);
    staged, steps, ok := map[], [], true;
    var left := plan.writes.Keys;
    NothingStaged(d0, plan);
    while ok && left != {}
      invariant dir.Valid() && dir.trace == old(dir.trace) + steps
      invariant StagingWithin(d0, dir.disk, bytes, entries)
      invariant ok ==> StagedSoFar(d0, dir.disk, plan, staged, left)
      invariant forall d :: d in steps ==> StagingWithin(d0, d, bytes, entries)
      invariant forall w :: w in staged ==> staged[w].name.Stage?
      invariant left <= plan.writes.Keys
      invariant plan.writes == map[] ==> ok && steps == [] && dir.disk == d0
      invariant (ok <==> dir.failed == old(dir.failed)) && dir.failed >= old(dir.failed)
      decreases ok, left
    {
      var name :| name in left;
      ghost var more;
      ok, staged, more := StageNext(dir, plan, staged, left, name, d0, bytes, entries);
      Append3(old(dir.trace), steps, more);
      steps := steps + more;
      left := left - {name};
    }
  }

  method StageNext(dir: Directory, plan: Batch, staged: map<FileName, Staged>, ghost left: set<FileName>,
      name: FileName,
                   ghost d0: Disk, ghost bytes: int, ghost entries: int)
    returns (ok: bool, staged': map<FileName, Staged>, ghost steps: seq<Disk>)
    requires dir.Valid() && Staging(d0, dir.disk) && name in left && StagedSoFar(d0, dir.disk, plan, staged, left)
    requires MostBytes(d0) + Size(plan.writes) <= bytes && MostEntries(d0) + |plan.writes| <= entries
    modifies dir
    ensures dir.Valid() && dir.trace == old(dir.trace) + steps
    ensures StagingWithin(d0, dir.disk, bytes, entries)
    ensures forall d :: d in steps ==> StagingWithin(d0, d, bytes, entries)
    ensures ok ==> StagedSoFar(d0, dir.disk, plan, staged', left - {name})
    ensures forall w :: w in staged' ==> staged'[w].name.Stage?
    ensures ok <==> dir.failed == old(dir.failed)
    ensures dir.failed >= old(dir.failed)
  {
    ghost var before := dir.disk;
    PartGrows(plan, left, name);
    var stage;
    ok, stage, steps := StageFile(dir, plan.writes[name], d0, bytes, entries);
    staged' := staged;
    if ok {
      LinkedFacts(before, dir.disk, stage, File(plan.writes[name], true));
      AlsoStaged(before, dir.disk, plan, staged, name, stage);
      AnotherStaged(d0, before, dir.disk, plan, staged, left, name, stage);
      staged' := staged[name := stage];
    }
  }

  /** All planned files but `left` are staged, and nothing else has changed. */
  ghost predicate StagedSoFar(d0: Disk, d: Disk, plan: Batch, staged: map<FileName, Staged>, left: set<FileName>) {
    && d0.Valid() && d.Valid()
    && left <= plan.writes.Keys && staged.Keys == plan.writes.Keys - left
    && Midway(d0.View(), d.View(), staged, map[], {}) && StagedFiles(d, plan, staged)
    && MostBytes(d) == MostBytes(d0) + Size(Part(plan, left))
    && MostEntries(d) == MostEntries(d0) + |plan.writes| - |left|
  }

  /** The planned files not among `left`. */
  function Part(plan: Batch, left: set<FileName>): Listing {
    map n | n in plan.writes && n !in left :: plan.writes[n]
  }

  lemma NothingStaged(d: Disk, plan: Batch)
    requires d.Valid()
    ensures StagedSoFar(d, d, plan, map[], plan.writes.Keys) && 0 <= Size(plan.writes)
  {
    assert Sizes(Part(plan, plan.writes.Keys)) == map[];
    TotalMonotone(map[], Sizes(plan.writes));
    assert |plan.writes.Keys| == |plan.writes|;
  }

  lemma PartGrows(plan: Batch, left: set<FileName>, name: FileName)
    requires left <= plan.writes.Keys && name in left
    ensures Size(Part(plan, left - {name})) == Size(Part(plan, left)) + |plan.writes[name]|
    ensures Size(Part(plan, left - {name})) <= Size(plan.writes)
    ensures |left - {name}| == |left| - 1
  {
    assert Sizes(Part(plan, left - {name})) == Sizes(Part(plan, left))[name := |plan.writes[name]|];
    TotalInsert(Sizes(Part(plan, left)), name, |plan.writes[name]|);
    TotalMonotone(Sizes(Part(plan, left - {name})), Sizes(plan.writes));
  }

  lemma AnotherStaged(d0: Disk, before: Disk, after: Disk, plan: Batch, staged: map<FileName, Staged>,
      left: set<FileName>,
                      name: FileName, stage: Staged)
    requires StagedSoFar(d0, before, plan, staged, left) && name in left
    requires stage.name !in before.View() && stage.name.Stage?
    requires after.Valid() && after.View() == before.View()[stage.name := stage.inode]
    requires MostBytes(after) == MostBytes(before) + |plan.writes[name]|
    requires MostEntries(after) == MostEntries(before) + 1
    requires StagedFiles(after, plan, staged[name := stage])
    ensures StagedSoFar(d0, after, plan, staged[name := stage], left - {name})
  {
    PartGrows(plan, left, name);
    OneLess(plan.writes.Keys, left, name);
    OneMore(staged, name, stage);
    MidwayStaged(d0.View(), before.View(), staged, name, stage);
  }

  lemma AlsoStaged(before: Disk, after: Disk, plan: Batch, staged: map<FileName, Staged>, name: FileName, stage: Staged)
    requires StagedFiles(before, plan, staged) && name in plan.writes
    requires Linked(before, after, stage, File(plan.writes[name], true))
    ensures StagedFiles(after, plan, staged[name := stage])
  {
  }

  lemma MidwayStaged(v0: Entries, v: Entries, staged: map<FileName, Staged>, name: FileName, stage: Staged)
    requires Midway(v0, v, staged, map[], {}) && name !in staged && stage.name.Stage? && stage.name !in v
    ensures Midway(v0, v[stage.name := stage.inode], staged[name := stage], map[], {})
  {
    assert forall w :: w in staged ==> staged[w].name in v && staged[w].name != stage.name;
    assert Lookup(v, stage.name) == Lookup(v0, stage.name);
    var staged' := staged[name := stage];
    forall n | NoStage(staged', n)
      ensures Lookup(v[stage.name := stage.inode], n) == Lookup(v0, n)
    {
      assert staged'[name].name != n;
      assert forall w :: w in staged ==> staged'[w] == staged[w];
    }
  }

  ghost predicate Unchanged(m: Listing, current: Listing, plan: Batch, staged: map<FileName, Staged>) {
    Ready(m, current, plan) && StagedContents(m, plan, staged)
  }

  ghost predicate StagedContents(m: Listing, plan: Batch, staged: map<FileName, Staged>) {
    forall n :: n in plan.writes ==> n in staged && Lookup(m, staged[n].name) == Some(plan.writes[n])
  }

  ghost predicate Matches(current: Listing, m: Listing) {
    forall n :: n in current ==> Lookup(m, n) == Some(current[n])
  }

  /** The directory `m` still holds what was read of it, and nothing where a file would
      newly appear. */
  ghost predicate Ready(m: Listing, current: Listing, plan: Batch) {
    Matches(current, m) && forall n :: n in plan.writes ==> n in current || n !in m
  }

  /** Re-reads every archived file, every staged file and every new destination
      before anything is replaced. */
  method Recheck(dir: Directory, current: Listing, plan: Batch, staged: map<FileName, Staged>) returns (ok: bool)
    requires dir.Valid() && staged.Keys == plan.writes.Keys
    ensures ok <==> Unchanged(Contents(dir.disk), current, plan, staged)
  {
    var left := current.Keys;
    while left != {}
      invariant left <= current.Keys
      invariant forall n :: n in current && n !in left ==> Lookup(Contents(dir.disk), n) == Some(current[n])
    {
      var name :| name in left;
      var data := dir.Read(name);
      if data != Some(current[name]) {
        return false;
      }
      left := left - {name};
    }
    left := plan.writes.Keys;
    while left != {}
      invariant left <= plan.writes.Keys
      invariant forall n :: n in plan.writes && n !in left ==>
        (&& Lookup(Contents(dir.disk), staged[n].name) == Some(plan.writes[n])
         && (n in current || n !in Contents(dir.disk)))
    {
      var name :| name in left;
      var data := dir.Read(staged[name].name);
      if data != Some(plan.writes[name]) {
        return false;
      }
      if name !in current {
        var present := dir.Read(name);
        if present.Some? {
          return false;
        }
      }
      left := left - {name};
    }
    return true;
  }

  /** The staged batch becomes durable; nothing archived has moved yet. */
  lemma SyncStarts(d0: Disk, d: Disk, plan: Batch)
    requires Staging(d0, d)
    ensures Installing(d0, d.Synced(), plan)
  {
    ViewValid(d);
    forall n: FileName | !n.Stage?
      ensures Progressed(d.files, d0.View(), d.View(), d.View(), plan, n)
    {
      var all := seq(|d.pending|, _ => true);
      ReplayStaging(d0, d, all, |d.pending|, n);
      assert d.pending[..|d.pending|] == d.pending && all[..|d.pending|] == all;
      assert all[..|d0.pending|] == seq(|d0.pending|, _ => true);
    }
  }

  lemma SyncKeepsInstalling(d0: Disk, d: Disk, plan: Batch, current: Listing)
    requires Installing(d0, d, plan) && plan.Valid(current)
    ensures Installing(d0, d.Synced(), plan)
  {
    ViewValid(d);
    var all := seq(|d.pending|, _ => true);
    ReplayInstalling(d0, d, plan, all, |d.pending|);
    assert d.pending[..|d.pending|] == d.pending && all[..|d.pending|] == all;
  }

  ghost predicate InstalledFiles(d: Disk, plan: Batch, installed: map<FileName, nat>) {
    forall w :: w in installed ==>
      w in plan.writes && installed[w] in d.files && d.files[installed[w]] == File(plan.writes[w], true)
  }

  /** Midway through the renames: every planned file is either still staged,
      durably, or installed. */
  ghost predicate Renaming(d0: Disk, d: Disk, plan: Batch, staged: map<FileName, Staged>,
      installed: map<FileName, nat>) {
    && Installing(d0, d, plan)
    && staged.Keys !! installed.Keys && staged.Keys + installed.Keys == plan.writes.Keys
    && Midway(d0.View(), d.View(), staged, installed, {})
    && StagedFiles(d, plan, staged) && InstalledFiles(d, plan, installed)
    && (forall w :: w in staged ==> Lookup(d.durable, staged[w].name) == Some(staged[w].inode))
  }

  lemma RenamesStart(d0: Disk, d: Disk, plan: Batch, staged: map<FileName, Staged>)
    requires Staging(d0, d) && StagedSoFar(d0, d, plan, staged, {})
    ensures Renaming(d0, d.Synced(), plan, staged, map[])
  {
    hide Installing, Staging, Midway, Bounded, Disk.View, MostBytes, MostEntries, Size, Part;
    SyncStarts(d0, d, plan);
    StagesSeen(d0.View(), d.View(), staged, map[]);
    SyncedView(d);
  }

  lemma SyncedView(d: Disk)
    ensures d.Synced().View() == d.View()
  {
  }

  lemma StagesSeen(v0: Entries, v: Entries, staged: map<FileName, Staged>, installed: map<FileName, nat>)
    requires Midway(v0, v, staged, installed, {})
    ensures forall w :: w in staged ==> staged[w].name.Stage? && Lookup(v, staged[w].name) == Some(staged[w].inode)
    ensures forall w, w' :: w in staged && w' in staged && staged[w].name == staged[w'].name ==> w == w'
  {
  }

  lemma Renamed(d0: Disk, d: Disk, plan: Batch, staged: map<FileName, Staged>, installed: map<FileName, nat>,
      name: FileName)
    requires Renaming(d0, d, plan, staged, installed) && name in staged
    requires forall n :: n in plan.writes ==> n.Archived?
    ensures Renaming(d0, d.Then(Rename(staged[name].name, name)), plan, staged - {name}, installed[name := staged[name].inode])
  {
    hide Midway;
    var op := Rename(staged[name].name, name);
    StagesSeen(d0.View(), d.View(), staged, installed);
    StillInstalling(d0, d, plan, op);
    ViewThen(d, op);
    MidwayRenamed(d0.View(), d.View(), staged, installed, name);
    hide Installing;
  }

  lemma MidwayRenamed(v0: Entries, v: Entries, staged: map<FileName, Staged>, installed: map<FileName, nat>,
      name: FileName)
    requires Midway(v0, v, staged, installed, {}) && name in staged && name.Archived?
    requires forall n :: n in installed ==> n.Archived?
    ensures Midway(v0, Apply(Rename(staged[name].name, name), v), staged - {name}, installed[name := staged[name].inode], {})
  {
    var stage := staged[name];
    var v' := Apply(Rename(stage.name, name), v);
    assert Lookup(v, stage.name) == Some(stage.inode) && stage.name != name;
    forall n | NoStage(staged - {name}, n)
      ensures Lookup(v', n) == if n == name then Some(stage.inode)
                               else if n in installed then Some(installed[n]) else Lookup(v0, n)
    {
      if n != name && n != stage.name {
        assert NoStage(staged, n) by { assert forall w :: w in staged && w != name ==> w in staged - {name}; }
      }
    }
  }

  /** Moves every staged file to its destination. `staged` keeps what is left. */
  method InstallAll(dir: Directory, plan: Batch, all: map<FileName, Staged>, ghost d0: Disk, ghost current: Listing,
                    ghost bytes: int, ghost entries: int)
    returns (ok: bool, staged: map<FileName, Staged>, ghost installed: map<FileName, nat>, ghost steps: seq<Disk>)
    requires dir.Valid() && plan.Valid(current) && Renaming(d0, dir.disk, plan, all, map[])
    requires Bounded(dir.disk, bytes, entries)
    modifies dir
    ensures dir.Valid() && dir.trace == old(dir.trace) + steps
    ensures Renaming(d0, dir.disk, plan, staged, installed) && (ok ==> staged == map[])
    ensures Bounded(dir.disk, bytes, entries)
    ensures forall d :: d in steps ==> Phase(d0, d, plan, bytes, entries)
    ensures ok <==> dir.failed == old(dir.failed)
    ensures dir.failed >= old(dir.failed)
  {
    AppendNil(dir.trace);
    staged, installed, steps, ok := all, map[], [], true;
    while ok && staged.Keys != {}
      invariant dir.Valid() && dir.trace == old(dir.trace) + steps
      invariant Renaming(d0, dir.disk, plan, staged, installed)
      invariant Bounded(dir.disk, bytes, entries)
      invariant forall d :: d in steps ==> Phase(d0, d, plan, bytes, entries)
      invariant (ok <==> dir.failed == old(dir.failed)) && dir.failed >= old(dir.failed)
      decreases ok, staged.Keys
    {
      var name :| name in staged.Keys;
      ghost var more;
      ok, staged, installed, more := RenameOne(dir, plan, staged, installed, name, d0, current, bytes, entries);
      Append3(old(dir.trace), steps, more);
      steps := steps + more;
    }
  }

  lemma OneStep(d0: Disk, d: Disk, plan: Batch, bytes: int, entries: int)
    requires Installing(d0, d, plan) && Bounded(d, bytes, entries)
    ensures forall s :: s in [d] ==> Phase(d0, s, plan, bytes, entries)
  {
    assert Phase(d0, d, plan, bytes, entries);
  }

  method RenameOne(dir: Directory, ghost plan: Batch, staged: map<FileName, Staged>,
      ghost installed: map<FileName, nat>,
                   name: FileName, ghost d0: Disk, ghost current: Listing, ghost bytes: int, ghost entries: int)
    returns (ok: bool, staged': map<FileName, Staged>, ghost installed': map<FileName, nat>, ghost steps: seq<Disk>)
    requires dir.Valid() && plan.Valid(current) && Renaming(d0, dir.disk, plan, staged, installed) && name in staged
    requires Bounded(dir.disk, bytes, entries)
    modifies dir
    ensures dir.Valid() && dir.trace == old(dir.trace) + steps
    ensures Renaming(d0, dir.disk, plan, staged', installed')
    ensures ok ==> staged'.Keys < staged.Keys
    ensures Bounded(dir.disk, bytes, entries)
    ensures forall d :: d in steps ==> Phase(d0, d, plan, bytes, entries)
    ensures ok <==> dir.failed == old(dir.failed)
    ensures dir.failed >= old(dir.failed)
  {
    AppendNil(dir.trace);
    staged', installed', steps := staged, installed, [];
    var op := Rename(staged[name].name, name);
    Renamed(d0, dir.disk, plan, staged, installed, name);
    ChangeKeepsBound(dir.disk, op);
    ok := dir.Change(op);
    if ok {
      steps := [dir.disk];
      OneStep(d0, dir.disk, plan, bytes, entries);
      staged' := staged - {name};
      assert staged'.Keys < staged.Keys by { assert name in staged.Keys && name !in staged'.Keys; }
      installed' := installed[name := staged[name].inode];
    }
  }

  /** Midway through the removals; every planned file is durable. */
  ghost predicate Pruning(d0: Disk, d: Disk, plan: Batch, installed: map<FileName, nat>, removed: set<FileName>) {
    && Installing(d0, d, plan) && AllPlanned(d.files, d.durable, plan)
    && installed.Keys == plan.writes.Keys && removed <= plan.remove
    && Midway(d0.View(), d.View(), map[], installed, removed) && InstalledFiles(d, plan, installed)
  }

  lemma RemovalsStart(d0: Disk, d: Disk, plan: Batch, installed: map<FileName, nat>, current: Listing)
    requires Renaming(d0, d, plan, map[], installed) && plan.Valid(current)
    ensures Pruning(d0, d.Synced(), plan, installed, {})
  {
    SyncKeepsInstalling(d0, d, plan, current);
    forall w | w in plan.writes ensures Planned(d.files, d.View(), plan, w) {
      assert Lookup(d.View(), w) == Some(installed[w]);
    }
  }

  lemma Removed(d0: Disk, d: Disk, plan: Batch, installed: map<FileName, nat>, removed: set<FileName>, name: FileName)
    requires Pruning(d0, d, plan, installed, removed) && name in plan.remove
    ensures Pruning(d0, d.Then(Unlink(name)), plan, installed, removed + {name})
  {
    StillInstalling(d0, d, plan, Unlink(name));
    ViewThen(d, Unlink(name));
  }

  /** Removes what retention drops, re-reading each file first. */
  method PruneAll(dir: Directory, current: Listing, plan: Batch, ghost installed: map<FileName, nat>, ghost d0: Disk,
                  ghost bytes: int, ghost entries: int)
    returns (ok: bool, ghost removed: set<FileName>, ghost steps: seq<Disk>)
    requires dir.Valid() && plan.Valid(current) && Pruning(d0, dir.disk, plan, installed, {})
    requires Bounded(dir.disk, bytes, entries) && Matches(current, Contents(d0))
    modifies dir
    ensures dir.Valid() && dir.trace == old(dir.trace) + steps
    ensures Pruning(d0, dir.disk, plan, installed, removed) && (ok ==> removed == plan.remove)
    ensures Bounded(dir.disk, bytes, entries)
    ensures forall d :: d in steps ==> Phase(d0, d, plan, bytes, entries)
    ensures ok <==> dir.failed == old(dir.failed)
    ensures dir.failed >= old(dir.failed)
  {
    hide Pruning, Phase, Bounded, Matches, Batch.Valid;
    AppendNil(dir.trace);
    removed, steps, ok := {}, [], true;
    var left := plan.remove;
    while ok && left != {}
      invariant dir.Valid() && dir.trace == old(dir.trace) + steps
      invariant left <= plan.remove && (ok ==> removed == plan.remove - left)
      invariant Pruning(d0, dir.disk, plan, installed, removed)
      invariant Bounded(dir.disk, bytes, entries)
      invariant forall d :: d in steps ==> Phase(d0, d, plan, bytes, entries)
      invariant (ok <==> dir.failed == old(dir.failed)) && dir.failed >= old(dir.failed)
      decreases ok, left
    {
      var name :| name in left;
      ghost var more;
      ok, more := RemoveOne(dir, current, plan, installed, removed, name, d0, bytes, entries);
      Append3(old(dir.trace), steps, more);
      steps := steps + more;
      OneLess(plan.remove, left, name);
      removed := if ok then removed + {name} else removed;
      left := left - {name};
    }
  }

  /** What is still to be removed is as it was when the archive was read. */
  lemma NotYetRemoved(d0: Disk, d: Disk, plan: Batch, installed: map<FileName, nat>, removed: set<FileName>,
      current: Listing, name: FileName)
    requires Pruning(d0, d, plan, installed, removed) && plan.Valid(current) && Matches(current, Contents(d0))
    requires name in plan.remove - removed
    ensures Lookup(Contents(d), name) == Some(current[name])
  {
    ViewValid(d0);
    ViewValid(d);
    assert Lookup(Contents(d0), name) == Some(current[name]);
    assert Lookup(d.View(), name) == Lookup(d0.View(), name);
  }

  method RemoveOne(dir: Directory, current: Listing, ghost plan: Batch, ghost installed: map<FileName, nat>,
                   ghost removed: set<FileName>, name: FileName, ghost d0: Disk, ghost bytes: int, ghost entries: int)
    returns (ok: bool, ghost steps: seq<Disk>)
    requires dir.Valid() && plan.Valid(current) && name in plan.remove - removed
    requires Pruning(d0, dir.disk, plan, installed, removed) && Bounded(dir.disk, bytes, entries)
    requires Matches(current, Contents(d0))
    modifies dir
    ensures dir.Valid() && dir.trace == old(dir.trace) + steps
    ensures ok ==> Pruning(d0, dir.disk, plan, installed, removed + {name})
    ensures !ok ==> Pruning(d0, dir.disk, plan, installed, removed)
    ensures Bounded(dir.disk, bytes, entries)
    ensures forall d :: d in steps ==> Phase(d0, d, plan, bytes, entries)
    ensures ok <==> dir.failed == old(dir.failed)
    ensures dir.failed >= old(dir.failed)
  {
    AppendNil(dir.trace);
    steps := [];
    NotYetRemoved(d0, dir.disk, plan, installed, removed, current, name);
    var data := dir.Read(name);
    ok := data == Some(current[name]);
    if ok {
      Removed(d0, dir.disk, plan, installed, removed, name);
      ChangeKeepsBound(dir.disk, Unlink(name));
      ok := dir.Change(Unlink(name));
      if ok {
        steps := [dir.disk];
        OneStep(d0, dir.disk, plan, bytes, entries);
      }
    }
  }

  /** Removes the staging files that are left, as far as that works. */
  method CleanUp(dir: Directory, staged: map<FileName, Staged>, ghost d0: Disk, ghost plan: Batch,
                 ghost bytes: int, ghost entries: int)
    returns (ghost steps: seq<Disk>)
    requires dir.Valid() && Phase(d0, dir.disk, plan, bytes, entries)
    requires forall w :: w in staged ==> staged[w].name.Stage?
    modifies dir
    ensures dir.Valid() && dir.trace == old(dir.trace) + steps
    ensures Phase(d0, dir.disk, plan, bytes, entries)
    ensures forall d :: d in steps ==> Phase(d0, d, plan, bytes, entries)
    ensures staged == map[] ==> dir.disk == old(dir.disk) && dir.failed == old(dir.failed)
    ensures Staging(d0, old(dir.disk)) ==> Staging(d0, dir.disk)
    ensures dir.failed >= old(dir.failed)
    ensures (&& dir.failed == old(dir.failed) && Staging(d0, old(dir.disk))
             && Midway(d0.View(), old(dir.disk.View()), staged, map[], {})) ==> Contents(dir.disk) == Contents(d0)
  {
    hide Midway, Staging, Phase;
    AppendNil(dir.trace);
    steps := [];
    var left := staged.Keys;
    ghost var whole := Midway(d0.View(), dir.disk.View(), staged, map[], {});
    assert staged - (staged.Keys - left) == staged;
    while left != {}
      invariant left <= staged.Keys
      invariant staged == map[] ==> dir.failed == old(dir.failed)
      invariant dir.failed >= old(dir.failed)
      invariant whole && dir.failed == old(dir.failed) ==>
        Midway(d0.View(), dir.disk.View(), staged - (staged.Keys - left), map[], {})
      invariant dir.Valid() && dir.trace == old(dir.trace) + steps
      invariant Phase(d0, dir.disk, plan, bytes, entries)
      invariant forall d :: d in steps ==> Phase(d0, d, plan, bytes, entries)
      invariant staged == map[] ==> dir.disk == old(dir.disk)
      invariant Staging(d0, old(dir.disk)) ==> Staging(d0, dir.disk)
    {
      var name :| name in left;
      DroppedStage(d0, dir.disk, plan, staged[name].name, bytes, entries);
      ghost var before := dir.disk.View();
      ViewThen(dir.disk, Unlink(staged[name].name));
      if whole && dir.failed == old(dir.failed) {
        MidwayDropped(d0.View(), before, staged - (staged.Keys - left), name);
      }
      ghost var more := RemoveStage(dir, staged[name]);
      if whole && dir.failed == old(dir.failed) {
        assert staged - (staged.Keys - left) - {name} == staged - (staged.Keys - (left - {name}));
      }
      Append3(old(dir.trace), steps, more);
      steps := steps + more;
      left := left - {name};
    }
    if whole && dir.failed == old(dir.failed) && Staging(d0, dir.disk) {
      assert staged - (staged.Keys - left) == map[];
      AllDropped(d0, dir.disk);
    }
  }

  lemma MidwayDropped(v0: Entries, v: Entries, staged: map<FileName, Staged>, name: FileName)
    requires Midway(v0, v, staged, map[], {}) && name in staged
    ensures Lookup(v, staged[name].name) == Some(staged[name].inode)
    ensures Midway(v0, v - {staged[name].name}, staged - {name}, map[], {})
  {
    var v', left := v - {staged[name].name}, staged - {name};
    forall n | NoStage(left, n)
      ensures Lookup(v', n) == Lookup(v0, n)
    {
      if n != staged[name].name {
        assert NoStage(staged, n) by { assert forall w :: w in staged && w != name ==> w in left; }
      }
    }
  }

  /** With its staging files gone the directory reads as it did. */
  lemma AllDropped(d0: Disk, d: Disk)
    requires Staging(d0, d) && Midway(d0.View(), d.View(), map[], map[], {})
    ensures Contents(d) == Contents(d0)
  {
    ViewValid(d0);
    ViewValid(d);
    var v0, v := d0.View(), d.View();
    var none: map<FileName, Staged> := map[];
    forall n ensures Lookup(v, n) == Lookup(v0, n) {
      assert NoStage(none, n);
    }
    SameLookup(v, v0);
  }

  /** Only staging names may differ between `m0` and `m`. */
  ghost predicate SameArchive(m0: Listing, m: Listing) {
    forall n: FileName :: !n.Stage? ==> Lookup(m, n) == Lookup(m0, n)
  }

  /** Every state since the start is crash-safe and within the staging budget. */
  ghost predicate AllSafe(d0: Disk, steps: seq<Disk>, plan: Batch)
    requires d0.Valid()
  {
    forall d :: d in steps ==>
      CrashSafe(d0, d, plan) && Bounded(d, MostBytes(d0) + Size(plan.writes), MostEntries(d0) + |plan.writes|)
  }

  lemma PhaseSteps(d0: Disk, steps: seq<Disk>, plan: Batch, bytes: int, entries: int)
    requires forall d :: d in steps ==> StagingWithin(d0, d, bytes, entries)
    ensures forall d :: d in steps ==> Phase(d0, d, plan, bytes, entries)
  {
  }

  lemma StepsSafe(d0: Disk, steps: seq<Disk>, plan: Batch, current: Listing, bytes: int, entries: int)
    requires d0.Valid() && plan.Valid(current)
    requires bytes == MostBytes(d0) + Size(plan.writes) && entries == MostEntries(d0) + |plan.writes|
    requires forall d :: d in steps ==> Phase(d0, d, plan, bytes, entries)
    ensures AllSafe(d0, steps, plan)
  {
    forall d | d in steps ensures CrashSafe(d0, d, plan) {
      PhaseSafe(d0, d, plan, current, bytes, entries);
    }
  }

  lemma NothingToInstall(plan: Batch, m: Listing)
    requires plan.writes.Keys + plan.remove == {}
    ensures plan.Install(m) == m && plan.writes == map[] && plan.remove == {}
  {
  }

  lemma StagingContents(d0: Disk, d: Disk)
    requires Staging(d0, d)
    ensures SameArchive(Contents(d0), Contents(d))
  {
    ViewValid(d0);
    ViewValid(d);
    var all := seq(|d.pending|, _ => true);
    forall n: FileName | !n.Stage? ensures Lookup(Contents(d), n) == Lookup(Contents(d0), n) {
      ReplayStaging(d0, d, all, |d.pending|, n);
      assert d.pending[..|d.pending|] == d.pending && all[..|d.pending|] == all;
      assert all[..|d0.pending|] == seq(|d0.pending|, _ => true);
    }
  }

  lemma InstallingContents(d0: Disk, d: Disk, plan: Batch, current: Listing)
    requires Installing(d0, d, plan) && plan.Valid(current)
    ensures Explains(plan, Contents(d0), Contents(d))
  {
    ViewValid(d0);
    ViewValid(d);
    var all := seq(|d.pending|, _ => true);
    ReplayInstalling(d0, d, plan, all, |d.pending|);
    assert d.pending[..|d.pending|] == d.pending && all[..|d.pending|] == all;
    ExplainedBy(d0, d, plan, current, d.View(), Contents(d0), Contents(d));
  }

  lemma PhaseContents(d0: Disk, d: Disk, plan: Batch, current: Listing, bytes: int, entries: int)
    requires Phase(d0, d, plan, bytes, entries) && plan.Valid(current)
    ensures Explains(plan, Contents(d0), Contents(d))
    ensures Staging(d0, d) ==> SameArchive(Contents(d0), Contents(d))
  {
    if Staging(d0, d) {
      StagingContents(d0, d);
      assert forall n :: n in plan.remove ==> Lookup(Contents(d), n) == Lookup(Contents(d0), n);
    } else {
      InstallingContents(d0, d, plan, current);
    }
  }

  /** After every rename and removal the directory is the planned one. */
  lemma PrunedContents(d0: Disk, d: Disk, plan: Batch, installed: map<FileName, nat>)
    requires Pruning(d0, d, plan, installed, plan.remove)
    requires plan.remove !! plan.writes.Keys
    ensures Contents(d) == plan.Install(Contents(d0))
  {
    ViewValid(d0);
    ViewValid(d);
    var want, got := plan.Install(Contents(d0)), Contents(d);
    forall n: FileName ensures Lookup(got, n) == Lookup(want, n) {
      assert Lookup(d.View(), n) == if n in plan.remove then None
                                    else if n in installed then Some(installed[n])
                                    else Lookup(d0.View(), n);
    }
    SameLookup(got, want);
  }

  /** Renames, then removals, each made durable before the next stage. */
  method Commit(dir: Directory, current: Listing, plan: Batch, all: map<FileName, Staged>, ghost d0: Disk,
                ghost bytes: int, ghost entries: int)
    returns (ok: bool, staged: map<FileName, Staged>, ghost steps: seq<Disk>)
    requires dir.Valid() && plan.Valid(current) && StagingWithin(d0, dir.disk, bytes, entries)
    requires StagedSoFar(d0, dir.disk, plan, all, {}) && Matches(current, Contents(d0))
    modifies dir
    ensures dir.Valid() && dir.trace == old(dir.trace) + steps
    ensures Phase(d0, dir.disk, plan, bytes, entries)
    ensures forall d :: d in steps ==> Phase(d0, d, plan, bytes, entries)
    ensures forall w :: w in staged ==> staged[w].name.Stage?
    ensures ok ==> staged == map[] && dir.disk.pending == [] && Contents(dir.disk) == plan.Install(Contents(d0))
    ensures ok <==> dir.failed == old(dir.failed)
    ensures dir.failed >= old(dir.failed)
  {
    AppendNil(dir.trace);
    steps, staged := [], all;
    RenamesStart(d0, dir.disk, plan, all);
    SyncKeepsBound(dir.disk);
    ok := dir.Sync();
    if ok {
      steps := [dir.disk];
      OneStep(d0, dir.disk, plan, bytes, entries);
      ghost var installed, more;
      ok, staged, installed, more := InstallAll(dir, plan, all, d0, current, bytes, entries);
      Append3(old(dir.trace), steps, more);
      steps := steps + more;
      if ok {
        ok, more := Retire(dir, current, plan, installed, d0, bytes, entries);
        Append3(old(dir.trace), steps, more);
        steps := steps + more;
      }
    }
  }

  method Retire(dir: Directory, current: Listing, plan: Batch, ghost installed: map<FileName, nat>, ghost d0: Disk,
                ghost bytes: int, ghost entries: int)
    returns (ok: bool, ghost steps: seq<Disk>)
    requires dir.Valid() && plan.Valid(current) && Renaming(d0, dir.disk, plan, map[], installed)
    requires Bounded(dir.disk, bytes, entries) && Matches(current, Contents(d0))
    modifies dir
    ensures dir.Valid() && dir.trace == old(dir.trace) + steps
    ensures Phase(d0, dir.disk, plan, bytes, entries)
    ensures forall d :: d in steps ==> Phase(d0, d, plan, bytes, entries)
    ensures ok ==> dir.disk.pending == [] && Contents(dir.disk) == plan.Install(Contents(d0))
    ensures ok <==> dir.failed == old(dir.failed)
    ensures dir.failed >= old(dir.failed)
  {
    hide Matches, Batch.Valid, Batch.Install, Midway, InstalledFiles, StagedFiles, AllPlanned, Installing, Staging;
    AppendNil(dir.trace);
    steps := [];
    RemovalsStart(d0, dir.disk, plan, installed, current);
    SyncKeepsBound(dir.disk);
    ok := dir.Sync();
    if ok {
      steps := [dir.disk];
      OneStep(d0, dir.disk, plan, bytes, entries);
      ghost var removed, more;
      ok, removed, more := PruneAll(dir, current, plan, installed, d0, bytes, entries);
      Append3(old(dir.trace), steps, more);
      steps := steps + more;
      if ok {
        ok, more := FinalSync(dir, current, plan, installed, d0, bytes, entries);
        Append3(old(dir.trace), steps, more);
        steps := steps + more;
      }
    }
  }

  method FinalSync(dir: Directory, ghost current: Listing, ghost plan: Batch, ghost installed: map<FileName, nat>,
      ghost d0: Disk,
                   ghost bytes: int, ghost entries: int)
    returns (ok: bool, ghost steps: seq<Disk>)
    requires dir.Valid() && plan.Valid(current) && Pruning(d0, dir.disk, plan, installed, plan.remove)
    requires Bounded(dir.disk, bytes, entries)
    modifies dir
    ensures dir.Valid() && dir.trace == old(dir.trace) + steps
    ensures Phase(d0, dir.disk, plan, bytes, entries)
    ensures forall d :: d in steps ==> Phase(d0, d, plan, bytes, entries)
    ensures ok ==> dir.disk.pending == [] && Contents(dir.disk) == plan.Install(Contents(d0))
    ensures ok <==> dir.failed == old(dir.failed)
    ensures dir.failed >= old(dir.failed)
  {
    AppendNil(dir.trace);
    steps := [];
    PrunedContents(d0, dir.disk, plan, installed);
    SyncKeepsInstalling(d0, dir.disk, plan, current);
    SyncKeepsBound(dir.disk);
    SyncKeepsContents(dir.disk);
    ok := dir.Sync();
    if ok {
      steps := [dir.disk];
      OneStep(d0, dir.disk, plan, bytes, entries);
    }
  }

  lemma SyncKeepsContents(d: Disk)
    requires d.Valid()
    ensures d.Synced().Valid() && Contents(d.Synced()) == Contents(d)
  {
    ViewValid(d);
    SyncedView(d);
  }

  /** Everything before the first sync: stage, then re-check. */
  method Prepare(dir: Directory, current: Listing, plan: Batch, ghost d0: Disk, ghost bytes: int, ghost entries: int)
    returns (ok: bool, staged: map<FileName, Staged>, ghost steps: seq<Disk>)
    requires dir.Valid() && dir.disk == d0 && plan.Valid(current)
    requires MostBytes(d0) + Size(plan.writes) <= bytes && MostEntries(d0) + |plan.writes| <= entries
    modifies dir
    ensures dir.Valid() && dir.trace == old(dir.trace) + steps
    ensures StagingWithin(d0, dir.disk, bytes, entries)
    ensures forall d :: d in steps ==> Phase(d0, d, plan, bytes, entries)
    ensures forall w :: w in staged ==> staged[w].name.Stage?
    ensures ok ==> StagedSoFar(d0, dir.disk, plan, staged, {})
    ensures ok && plan.writes == map[] ==> dir.disk == d0 && staged == map[]
    ensures ok <==> dir.failed == old(dir.failed) && Ready(Contents(d0), current, plan)
    ensures dir.failed >= old(dir.failed)
    ensures dir.failed == old(dir.failed) ==> Midway(d0.View(), dir.disk.View(), staged, map[], {})
  {
    ok, staged, steps := StageAll(dir, plan, d0, bytes, entries);
    PhaseSteps(d0, steps, plan, bytes, entries);
    if ok {
      RecheckMeans(d0, dir.disk, current, plan, staged);
      ok := Recheck(dir, current, plan, staged);
    }
  }

  /** Staging changes nothing of what is re-checked, and the staged files are as written. */
  lemma RecheckMeans(d0: Disk, d: Disk, current: Listing, plan: Batch, staged: map<FileName, Staged>)
    requires Staging(d0, d) && plan.Valid(current) && StagedSoFar(d0, d, plan, staged, {})
    ensures Unchanged(Contents(d), current, plan, staged) <==> Ready(Contents(d0), current, plan)
  {
    StagingContents(d0, d);
    StagedAsWritten(d0, d, plan, staged);
    SameReady(Contents(d0), Contents(d), current, plan);
  }

  lemma SameReady(m0: Listing, m: Listing, current: Listing, plan: Batch)
    requires SameArchive(m0, m) && plan.Valid(current)
    ensures Ready(m, current, plan) <==> Ready(m0, current, plan)
  {
    assert forall n :: n in current ==> Lookup(m, n) == Lookup(m0, n);
    assert forall n :: n in plan.writes ==> Lookup(m, n) == Lookup(m0, n);
    assert forall n :: n in plan.writes ==> (n in m <==> n in m0);
  }

  lemma StagedAsWritten(d0: Disk, d: Disk, plan: Batch, staged: map<FileName, Staged>)
    requires StagedSoFar(d0, d, plan, staged, {})
    ensures StagedContents(Contents(d), plan, staged)
  {
    forall n | n in plan.writes ensures n in staged && Lookup(Contents(d), staged[n].name) == Some(plan.writes[n]) {
      StagedRead(d0.View(), d, plan, staged, n);
    }
    hide Midway, StagedFiles;
  }

  lemma StagedRead(v0: Entries, d: Disk, plan: Batch, staged: map<FileName, Staged>, n: FileName)
    requires d.Valid() && Midway(v0, d.View(), staged, map[], {}) && StagedFiles(d, plan, staged) && n in staged
    ensures Lookup(Contents(d), staged[n].name) == Some(plan.writes[n])
  {
    ViewValid(d);
    assert Lookup(d.View(), staged[n].name) == Some(staged[n].inode);
    hide Midway;
  }

  /** Installs the batch. Whatever happens on the way, a crash leaves every archived
      name at its old or its planned contents and removes nothing before every
      write is durable. It succeeds exactly when no operation failed and the directory is
      as it was read, and then the directory is the planned one; a refusal without failed
      operations leaves no trace. */
  method InstallPlan(dir: Directory, current: Listing, plan: Batch) returns (ok: bool, ghost steps: seq<Disk>)
    requires dir.Valid() && plan.Valid(current)
    modifies dir
    ensures dir.Valid() && dir.trace == old(dir.trace) + steps
    ensures AllSafe(old(dir.disk), steps, plan)
    ensures ok ==> Contents(dir.disk) == plan.Install(old(Contents(dir.disk)))
    ensures ok && (plan.writes != map[] || plan.remove != {}) ==> dir.disk.pending == []
    ensures Explains(plan, old(Contents(dir.disk)), Contents(dir.disk))
    ensures ok <==> dir.failed == old(dir.failed) && Ready(old(Contents(dir.disk)), current, plan)
    ensures dir.failed >= old(dir.failed)
    ensures !ok && dir.failed == old(dir.failed) ==> Contents(dir.disk) == old(Contents(dir.disk))
    ensures !Ready(old(Contents(dir.disk)), current, plan) ==> SameArchive(old(Contents(dir.disk)), Contents(dir.disk))
  {
    ghost var d0 := dir.disk;
    ghost var bytes, entries := MostBytes(d0) + Size(plan.writes), MostEntries(d0) + |plan.writes|;
    var staged;
    ok, staged, steps := Prepare(dir, current, plan, d0, bytes, entries);
    ghost var more;
    if ok && plan.writes.Keys + plan.remove != {} {
      ok, staged, more := Commit(dir, current, plan, staged, d0, bytes, entries);
      Append3(old(dir.trace), steps, more);
      steps := steps + more;
    } else if ok {
      NothingToInstall(plan, Contents(d0));
    }
    more := CleanUp(dir, staged, d0, plan, bytes, entries);
    Append3(old(dir.trace), steps, more);
    steps := steps + more;
    PhaseContents(d0, dir.disk, plan, current, bytes, entries);
    StepsSafe(d0, steps, plan, current, bytes, entries);
  }
}
