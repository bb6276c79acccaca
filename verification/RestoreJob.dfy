/** The restore operation: a multi-root replace with a write-ahead journal. */
module RestoreJob {

  import opened Wrappers
  import opened RestoreHelper

  datatype Phase = Staging | MovingOld | OldMoved | Replaced | RollingBack | RolledBack

  datatype Status = Preparing | Replacing | Undoing | Committed | Cleaned | Undone

  datatype Item = Item(root: string, phase: Phase)

  datatype Journal = Journal(status: Status, roots: seq<Item>)

  datatype JournalError = InvalidJournal

  const MAX_ROOTS := 8

  predicate Distinct(names: seq<string>) {
    forall i, j :: 0 <= i < j < |names| ==> names[i] != names[j]
  }

  function Names(items: seq<Item>): seq<string> {
    seq(|items|, i requires 0 <= i < |items| => items[i].root)
  }

  /** restoreState: the saved journal, or an error for one that no run saves. */
  function ReadJournal(saved: Option<Journal>, dataUnsafe: bool): Result<Option<Journal>, JournalError> {
    if saved.None? then
      if dataUnsafe then Err(InvalidJournal) else Ok(None)
    else
      var j := saved.value;
      if j.status.Cleaned? || j.status.Undone? then
        if j.roots == [] then Ok(saved) else Err(InvalidJournal)
      else if 1 <= |j.roots| <= MAX_ROOTS && Distinct(Names(j.roots)) &&
              (j.status.Preparing? ==> forall e :: e in j.roots ==> e.phase.Staging?) &&
              (j.status.Committed? ==> forall e :: e in j.roots ==> e.phase.Replaced?) then
        Ok(saved)
      else
        Err(InvalidJournal)
  }

  function DataUnsafe(status: Status): bool {
    status.Replacing? || status.Undoing?
  }

  /** restoreInitialState's rule for when game data is safe to start on. */
  function DataSafe(saved: Option<Journal>, dataUnsafe: bool): bool {
    match ReadJournal(saved, dataUnsafe)
    case Err(_) => false
    case Ok(None) => !dataUnsafe
    case Ok(Some(j)) => !DataUnsafe(j.status)
  }

  function Unsafe(saved: Option<Journal>): bool {
    saved.Some? && DataUnsafe(saved.value.status)
  }

  /** What one write of a journal can leave in the row and in memory. */
  predicate Wrote(row: Option<Journal>, mem: Option<Journal>, j: Option<Journal>, s: Outcome,
                  rowAfter: Option<Journal>, memAfter: Option<Journal>)
  {
    if s == Done then rowAfter == memAfter == j else memAfter == mem && (rowAfter == row || rowAfter == j)
  }

  function IndexOf(items: seq<Item>, root: string): (k: nat)
    ensures k <= |items|
    ensures k < |items| ==> items[k].root == root
    ensures forall i :: 0 <= i < k ==> items[i].root != root
  {
    if items == [] || items[0].root == root then 0 else 1 + IndexOf(items[1..], root)
  }

  lemma IndexOfOwn(items: seq<Item>, i: nat)
    requires i < |items| && Distinct(Names(items))
    ensures IndexOf(items, items[i].root) == i
  {
    var k := IndexOf(items, items[i].root);
    assert Names(items)[k] == items[i].root == Names(items)[i];
  }

  /** Where a root's data is, given its phase: `o` are its original entries and
    * `a` the archive's. */
  ghost predicate RootOk(status: Status, phase: Phase, d: RootDir, o: Files, a: Files) {
    match phase
    case Staging =>
      d.live == o && (status.Replacing? ==> d.stage == Some(Stage(Some(a), Some(map[]))))
    case MovingOld =>
      && Get(d, Saved).Some? && Split(d.live, Get(d, Saved).value, o)
      && (status.Replacing? ==> Get(d, Incoming) == Some(a))
    case OldMoved =>
      && Get(d, Saved) == Some(o)
      && if status.Replacing?
         then Get(d, Incoming).Some? && Split(Get(d, Incoming).value, d.live, a)
         else Remnants(d.live, a)
    case Replaced =>
      if status.Committed? then d.live == a
      else Get(d, Saved) == Some(o) && if status.Replacing? then d.live == a else Remnants(d.live, a)
    case RollingBack =>
      status.Undoing? && Get(d, Saved).Some? && Split(Get(d, Saved).value, d.live, o)
    case RolledBack =>
      status.Undoing? && d.live == o
  }

  /** The data of a restore: what its roots held, what the archive holds, and
    * the directories as they are now. */
  datatype Data = Data(names: seq<string>, original: seq<Files>, archive: seq<Files>, dirs: seq<RootDir>)

  ghost predicate Sized(w: Data) {
    1 <= |w.names| <= MAX_ROOTS && |w.names| == |w.original| == |w.archive| == |w.dirs| && Distinct(w.names)
  }

  // Every root holds exactly these entries and no stage is left.
  ghost predicate Holds(w: Data, files: seq<Files>) {
    |files| == |w.dirs| && forall i :: 0 <= i < |w.dirs| ==> w.dirs[i] == RootDir(files[i], None)
  }

  ghost predicate LiveHolds(w: Data, files: seq<Files>) {
    |files| == |w.dirs| && forall i :: 0 <= i < |w.dirs| ==> w.dirs[i].live == files[i]
  }

  /** The journal and the disk agree. This holds in every state a crash can
    * leave, so it is what recovery starts from. */
  ghost predicate Consistent(saved: Option<Journal>, w: Data) {
    && Sized(w)
    && match saved
       case None => Holds(w, w.original)
       case Some(j) =>
         match j.status
         case Cleaned => j.roots == [] && Holds(w, w.archive)
         case Undone => j.roots == [] && Holds(w, w.original)
         case _ =>
           && Names(j.roots) == w.names
           && (j.status.Preparing? ==> forall e :: e in j.roots ==> e.phase.Staging?)
           && (j.status.Committed? ==> forall e :: e in j.roots ==> e.phase.Replaced?)
           && forall i :: 0 <= i < |j.roots| ==>
             RootOk(j.status, j.roots[i].phase, w.dirs[i], w.original[i], w.archive[i])
  }

  ghost predicate IsCommitted(saved: Option<Journal>) {
    saved.Some? && (saved.value.status.Committed? || saved.value.status.Cleaned?)
  }

  /** Every journal a run saves is one that recovery accepts. */
  lemma SavedJournalsAreReadable(saved: Option<Journal>, w: Data)
    requires Consistent(saved, w)
    ensures ReadJournal(saved, saved.Some? && DataUnsafe(saved.value.status)) == Ok(saved)
  {
  }

  /** The server is only ever started on roots that are all whole: all original
    * before the commit, all new after it. */
  lemma StartsOnWholeData(saved: Option<Journal>, w: Data)
    requires Consistent(saved, w)
    requires DataSafe(saved, saved.Some? && DataUnsafe(saved.value.status))
    ensures if IsCommitted(saved) then LiveHolds(w, w.archive) else LiveHolds(w, w.original)
  {
  }

  /** Until the commit, every original entry of every root exists, unchanged,
    * in exactly one of the root and its saved directory, and the phase says
    * where: in the root while staging or rolled back, in the saved directory
    * once old_moved or replaced, and divided between the two in between. */
  lemma PhaseLocatesOriginals(j: Journal, w: Data, i: nat)
    requires Consistent(Some(j), w) && i < |j.roots| && !IsCommitted(Some(j))
    ensures |j.roots| == |w.dirs|
    ensures var d, o, phase := w.dirs[i], w.original[i], j.roots[i].phase;
            && (phase.Staging? || phase.RolledBack? ==> d.live == o)
            && (phase.OldMoved? || phase.Replaced? ==> Get(d, Saved) == Some(o) && d.live.Keys <= w.archive[i].Keys)
            && (phase.MovingOld? || phase.RollingBack? ==>
                  && Get(d, Saved).Some? && d.live.Keys !! Get(d, Saved).value.Keys
                  && d.live + Get(d, Saved).value == o)
  {
  }

  function WithPhase(j: Journal, index: nat, phase: Phase): (r: Journal)
    requires index < |j.roots|
    ensures Names(r.roots) == Names(j.roots)
  {
    j.(roots := j.roots[index := j.roots[index].(phase := phase)])
  }

  ghost predicate Underway(status: Status) {
    status.Replacing? || status.Undoing?
  }

  /** A step that changes one root, and its phase, keeps the rest readable. */
  lemma OneRootChanged(j: Journal, w: Data, i: nat, phase: Phase, dirs: seq<RootDir>)
    requires Consistent(Some(j), w) && Underway(j.status) && i < |j.roots|
    requires |dirs| == |w.dirs| && forall k :: 0 <= k < |dirs| && k != i ==> dirs[k] == w.dirs[k]
    requires i < |dirs| && RootOk(j.status, phase, dirs[i], w.original[i], w.archive[i])
    ensures Consistent(Some(WithPhase(j, i, phase)), w.(dirs := dirs))
  {
  }

  /** Giving up a replace or a staging keeps the disk readable as an undo. */
  lemma UndoIsConsistent(j: Journal, w: Data)
    requires Consistent(Some(j), w) && (j.status.Preparing? || j.status.Replacing? || j.status.Undoing?)
    ensures Consistent(Some(Journal(Undoing, j.roots)), w)
  {
  }

  /** Once a failed replacement is deleted, the saved originals can be returned. */
  lemma MayReturn(j: Journal, w: Data, i: nat)
    requires Consistent(Some(j), w) && j.status.Undoing? && i < |j.roots|
    requires !j.roots[i].phase.Staging? && !j.roots[i].phase.RolledBack?
    requires j.roots[i].phase.OldMoved? || j.roots[i].phase.Replaced? ==> i < |w.dirs| && w.dirs[i].live == map[]
    ensures |w.original| == |w.archive| == |w.dirs| == |j.roots|
    ensures RootOk(Undoing, RollingBack, w.dirs[i], w.original[i], w.archive[i])
  {
    assert |Names(j.roots)| == |j.roots|;
    assert map[] + w.original[i] == w.original[i];
  }

  /** A commit can be replaced: its write is saved though it is reported failed,
    * the operation rolls back, and the row then says so. */
  lemma CommitCanBeRevoked() returns (w: Data, replacing: Journal, committed: Journal, undoing: Journal)
    ensures w.original != w.archive && IsCommitted(Some(committed)) && undoing.status.Undoing?
    ensures Consistent(Some(replacing), w) && Consistent(Some(committed), w) && Consistent(Some(undoing), w)
    ensures Wrote(Some(replacing), Some(replacing), Some(committed), Failed, Some(committed), Some(replacing))
    ensures Wrote(Some(committed), Some(replacing), Some(undoing), Done, Some(undoing), Some(undoing))
  {
    var o: Files, a: Files := map["old" := Regular([1], 1)], map["new" := Regular([2], 1)];
    var roots := [Item("world", Replaced)];
    replacing, committed, undoing := Journal(Replacing, roots), Journal(Committed, roots), Journal(Undoing, roots);
    w := Data(["world"], [o], [a], [RootDir(a, Some(Stage(Some(map[]), Some(o))))]);
    assert Names(roots) == w.names;
    assert "old" in o && "old" !in a;
  }

  lemma BeginPreparing(items: seq<Item>, w: Data)
    requires Consistent(None, w) && |items| == |w.names|
    requires forall k :: 0 <= k < |items| ==> items[k] == Item(w.names[k], Staging)
    ensures Consistent(Some(Journal(Preparing, items)), w) && items != []
  {
    assert Names(items) == w.names;
  }

  /** Once every root is staged, the originals may be moved. */
  lemma BeginReplacing(j: Journal, w: Data)
    requires Consistent(Some(j), w) && j.status.Preparing? && |w.original| == |w.archive| == |w.dirs|
    requires forall k :: 0 <= k < |w.dirs| ==>
      w.dirs[k] == RootDir(w.original[k], Some(Stage(Some(w.archive[k]), Some(map[]))))
    ensures Consistent(Some(Journal(Replacing, j.roots)), w)
    ensures forall e :: e in j.roots ==> e.phase.Staging?
  {
    assert |Names(j.roots)| == |w.names|;
    assert forall k :: 0 <= k < |j.roots| ==> j.roots[k] in j.roots;
  }

  class Restore {
    const disk: Disk
    const names: seq<string>
    // The operation's recovery fields, as saved in its row and in memory.
    var row: Option<Journal>
    var rowUnsafe: bool
    var mem: Option<Journal>
    var memUnsafe: bool
    ghost const original: seq<Files>
    const archive: seq<Files>
    // Whether the committed journal was ever saved, whether another one replaced
    // it in the row, and whether a write of it was saved though it failed.
    ghost var committed: bool
    ghost var revoked: bool
    ghost var unheard: bool

    constructor (disk: Disk, names: seq<string>, archive: seq<Files>, ghost original: seq<Files>)
      requires Consistent(None, Data(names, original, archive, disk.dirs))
      ensures Inv() && Synced() && mem.None? && this.disk == disk && this.names == names
      ensures this.original == original && this.archive == archive && !committed && !unheard
    {
      this.disk, this.names := disk, names;
      this.original, this.archive := original, archive;
      row, rowUnsafe, mem, memUnsafe := None, false, None, false;
      committed, revoked, unheard := false, false, false;
    }

    ghost function World(): Data
      reads this, disk
    {
      Data(names, original, archive, disk.dirs)
    }

    /** The disk agrees with the row, which a restart reads, and with memory,
      * which the operation goes on from. The commit is replaced in the row only
      * if its write was saved though it was reported failed. */
    ghost predicate Inv()
      reads this, disk
    {
      && Consistent(row, World()) && Consistent(mem, World())
      && rowUnsafe == Unsafe(row) && memUnsafe == Unsafe(mem)
      && IsCommitted(row) == (committed && !revoked)
      && (IsCommitted(mem) ==> IsCommitted(row))
      && (IsCommitted(row) && !IsCommitted(mem) ==> unheard)
      && (revoked ==> committed && unheard && !IsCommitted(mem))
    }

    // Memory is what a restart would read.
    predicate Synced()
      reads this
    {
      row == mem && rowUnsafe == memUnsafe
    }

    /** One atomic write of the recovery fields, with this journal. Memory changes
      * only when the write is known to have succeeded; the row may have changed
      * whatever is reported. */
    method Write(j: Option<Journal>) returns (s: Outcome)
      requires Inv() && Consistent(j, World()) && (IsCommitted(mem) ==> IsCommitted(j))
      requires IsCommitted(j) && !IsCommitted(mem) ==> !committed
      modifies this, disk`faults
      ensures Inv() && Wrote(old(row), old(mem), j, s, row, mem)
      ensures committed == (old(committed) || IsCommitted(row)) && (old(row) == old(mem) ==> revoked == old(revoked))
      ensures unheard == (old(unheard) || (s != Done && IsCommitted(row) && !IsCommitted(old(mem))))
      ensures s == Done ==> Synced()
      ensures disk.faults == old(disk.faults) + if s == Done then 0 else 1
    {
      hide Consistent;
      s := disk.Fate();
      var effective: bool := *;
      if s == Done || effective {
        revoked := revoked || (IsCommitted(row) && !IsCommitted(j));
        row, rowUnsafe := j, Unsafe(j);
        committed := committed || IsCommitted(j);
        unheard := unheard || (s != Done && IsCommitted(j) && !IsCommitted(mem));
      }
      if s == Done {
        mem, memUnsafe := j, Unsafe(j);
      }
    }

    /** saveRestore. */
    method Save(j: Journal) returns (s: Outcome)
      requires Inv() && Consistent(Some(j), World()) && (IsCommitted(mem) ==> IsCommitted(Some(j)))
      requires IsCommitted(Some(j)) && !IsCommitted(mem) ==> !committed
      modifies this, disk`faults
      ensures Inv() && Wrote(old(row), old(mem), Some(j), s, row, mem)
      ensures committed == (old(committed) || IsCommitted(row)) && (old(row) == old(mem) ==> revoked == old(revoked))
      ensures s == Done ==> Synced()
      ensures disk.faults == old(disk.faults) + if s == Done then 0 else 1
    {
      s := Write(Some(j));
    }

    // Any other progress of the operation writes the journal in memory again.
    method Refresh() returns (s: Outcome)
      requires Inv()
      modifies this, disk`faults
      ensures Inv() && mem == old(mem) && (row == mem || row == old(row))
      ensures committed == (old(committed) || IsCommitted(row)) && (old(row) == old(mem) ==> revoked == old(revoked))
      ensures s == Done ==> Synced()
      ensures disk.faults == old(disk.faults) + if s == Done then 0 else 1
    {
      s := Write(mem);
    }

    /** A restart of Ludock: only the row remains. */
    method Reload()
      requires Inv()
      modifies this`mem, this`memUnsafe
      ensures Inv() && Synced() && row == old(row)
    {
      mem, memUnsafe := row, rowUnsafe;
    }

    /** persistJournal: save one root's phase. The data must already be where
      * the new phase says. */
    method Persist(root: string, phase: Phase, ghost i: nat) returns (s: Outcome)
      requires Inv() && Synced() && mem.Some? && Underway(mem.value.status)
      requires i < |mem.value.roots| && mem.value.roots[i].root == root
      requires RootOk(mem.value.status, phase, disk.dirs[i], original[i], archive[i])
      modifies this, disk`faults
      ensures Inv() && mem.Some? && committed == old(committed) && revoked == old(revoked)
      ensures s == Done ==> Synced() && mem == Some(WithPhase(old(mem).value, i, phase))
      ensures s != Done ==> mem == old(mem)
      ensures disk.faults == old(disk.faults) + if s == Done then 0 else 1
    {
      IndexOfOwn(mem.value.roots, i);
      OneRootChanged(mem.value, World(), i, phase, disk.dirs);
      s := Save(WithPhase(mem.value, IndexOf(mem.value.roots, root), phase));
    }

    // Any other check of the operation: access, the server still stopped, the
    // data helper created, enough room. It lets the next commands go.
    method Check() returns (s: Outcome)
      modifies disk`faults, disk`allowed
      ensures s == Done ==> disk.allowed
      ensures disk.faults == old(disk.faults) + if s == Done then 0 else 1
    {
      s := disk.Fate();
      disk.allowed := s == Done;
    }

    ghost predicate Trouble(faults: nat, refusals: nat)
      reads disk
    {
      disk.faults >= faults && disk.refusals >= refusals && disk.faults + disk.refusals > faults + refusals
    }

    // A second one, after the one that stopped the run.
    ghost predicate TwoTroubles(faults: nat, refusals: nat)
      reads disk
    {
      disk.faults >= faults && disk.refusals >= refusals && disk.faults + disk.refusals >= faults + refusals + 2
    }

    /** rollbackRestore: undo root by root, last root first. */
    method Rollback() returns (s: Outcome)
      requires Inv() && mem.Some? && mem.value.roots != [] && !IsCommitted(mem)
      modifies this, disk
      ensures Inv() && !IsCommitted(mem) && committed == old(committed) &&
              (old(row) == old(mem) ==> revoked == old(revoked))
      ensures s == Done ==> Synced() && mem == Some(Journal(Undone, []))
      ensures s == Done ==> disk.faults == old(disk.faults) && disk.refusals == old(disk.refusals)
      ensures s != Done ==> Trouble(old(disk.faults), old(disk.refusals))
    {
      hide RootOk;
      var entries := mem.value.roots;
      UndoIsConsistent(mem.value, World());
      s := Save(Journal(Undoing, entries));
      if s != Done {
        return;
      }
      var position := |entries|;
      while position > 0
        invariant 0 <= position <= |entries| == |names|
        invariant Inv() && Synced() && mem.Some? && mem.value.status == Undoing && committed == old(committed)
        invariant old(row) == old(mem) ==> revoked == old(revoked)
        invariant |mem.value.roots| == |entries|
        invariant mem.value.roots[..position] == entries[..position]
        invariant forall k :: position <= k < |entries| ==> disk.dirs[k] == RootDir(original[k], None)
        invariant disk.faults == old(disk.faults) && disk.refusals == old(disk.refusals)
      {
        position := position - 1;
        s := RollbackRoot(entries[position], position);
        if s != Done {
          return;
        }
      }
      s := Save(Journal(Undone, []));
    }

    method RollbackRoot(entry: Item, position: nat) returns (s: Outcome)
      requires Inv() && Synced() && mem.Some? && mem.value.status == Undoing
      requires position < |mem.value.roots| && mem.value.roots[position] == entry
      modifies this, disk
      ensures Inv() && mem.Some? && mem.value.status == Undoing && committed == old(committed)
      ensures revoked == old(revoked)
      ensures disk.OnlyChanged(old(disk.dirs), position)
      ensures |mem.value.roots| == old(|mem.value.roots|)
      ensures mem.value.roots[..position] == old(mem.value.roots[..position])
      ensures s == Done ==> Synced() && disk.dirs[position] == RootDir(original[position], None)
      ensures s == Done ==> disk.faults == old(disk.faults) && disk.refusals == old(disk.refusals)
      ensures s != Done ==> Trouble(old(disk.faults), old(disk.refusals))
    {
      hide Consistent, RootOk;
      s := Check();
      if s != Done {
        return;
      }
      if entry.phase.OldMoved? || entry.phase.Replaced? {
        s := CleanRoot(position);
        if s != Done {
          return;
        }
      }
      if !entry.phase.Staging? && !entry.phase.RolledBack? {
        MayReturn(mem.value, World(), position);
        s := ReturnRoot(entry.root, position);
        if s != Done {
          return;
        }
      }
      s := CleanStage(position);
    }

    /** Between two saved phases, return the saved originals. */
    method ReturnRoot(root: string, i: nat) returns (s: Outcome)
      requires Inv() && Synced() && mem.Some? && mem.value.status == Undoing && disk.allowed
      requires i < |mem.value.roots| && mem.value.roots[i].root == root
      requires RootOk(Undoing, RollingBack, disk.dirs[i], original[i], archive[i])
      modifies this, disk
      ensures disk.allowed
      ensures Inv() && mem.Some? && mem.value.status == Undoing && committed == old(committed)
      ensures revoked == old(revoked)
      ensures disk.OnlyChanged(old(disk.dirs), i)
      ensures |mem.value.roots| == old(|mem.value.roots|)
      ensures mem.value.roots[..i] == old(mem.value.roots[..i])
      ensures s == Done ==> Synced() && mem.value.roots[i].phase == RolledBack
      ensures s == Done ==> disk.faults == old(disk.faults) && disk.refusals == old(disk.refusals)
      ensures s != Done ==> Trouble(old(disk.faults), old(disk.refusals))
    {
      s := Persist(root, RollingBack, i);
      if s != Done {
        return;
      }
      s := ReturnOld(i);
      if s != Done {
        return;
      }
      s := Persist(root, RolledBack, i);
    }

    ghost predicate RootIn(i: nat, phases: set<Phase>)
      reads this
    {
      mem.Some? && Underway(mem.value.status) && i < |mem.value.roots| && mem.value.roots[i].phase in phases
    }

    /** Delete a failed replacement; the saved originals are not touched. */
    method CleanRoot(i: nat) returns (s: Outcome)
      requires Inv() && Synced() && RootIn(i, {OldMoved, Replaced}) && mem.value.status.Undoing? && disk.allowed
      modifies disk
      ensures disk.allowed
      ensures Inv() && disk.OnlyChanged(old(disk.dirs), i) && i < |disk.dirs|
      ensures s == Done ==> disk.dirs[i].live == map[]
      ensures Get(disk.dirs[i], Saved) == Some(original[i])
      ensures s == Done ==> disk.faults == old(disk.faults) && disk.refusals == old(disk.refusals)
      ensures s != Done ==> Trouble(old(disk.faults), old(disk.refusals))
    {
      ghost var j, w := mem.value, World();
      ghost var count;
      s, count := disk.RollbackClean(i);
      RemnantsTransitive(disk.dirs[i].live, w.dirs[i].live, archive[i]);
      OneRootChanged(j, w, i, j.roots[i].phase, disk.dirs);
      assert WithPhase(j, i, j.roots[i].phase) == j;
    }

    /** Return the saved originals. No name can already be taken. */
    method ReturnOld(i: nat) returns (s: Outcome)
      requires Inv() && Synced() && RootIn(i, {RollingBack}) && mem.value.status.Undoing? && disk.allowed
      modifies disk
      ensures disk.allowed
      ensures Inv() && disk.OnlyChanged(old(disk.dirs), i)
      ensures s == Done ==> disk.dirs[i].live == original[i]
      ensures s == Done ==> disk.faults == old(disk.faults) && disk.refusals == old(disk.refusals)
      ensures s != Done ==> Trouble(old(disk.faults), old(disk.refusals))
    {
      ghost var j, w := mem.value, World();
      s := disk.RollbackOld(i);
      var d := disk.dirs[i];
      MovedKeepsSplit(Get(w.dirs[i], Saved).value, w.dirs[i].live, Get(d, Saved).value, d.live, original[i]);
      OneRootChanged(j, w, i, RollingBack, disk.dirs);
      assert WithPhase(j, i, RollingBack) == j;
      assert s == Done ==> map[] + d.live == d.live;
    }

    method CleanStage(i: nat) returns (s: Outcome)
      requires Inv() && Synced() && RootIn(i, {Staging, RolledBack}) && mem.value.status.Undoing? && disk.allowed
      modifies disk
      ensures Inv() && disk.OnlyChanged(old(disk.dirs), i)
      ensures s == Done ==> disk.dirs[i] == RootDir(original[i], None)
      ensures s == Done ==> disk.faults == old(disk.faults) && disk.refusals == old(disk.refusals)
      ensures s != Done ==> Trouble(old(disk.faults), old(disk.refusals))
    {
      ghost var j, w := mem.value, World();
      ghost var count;
      s, count := disk.Cleanup(i);
      OneRootChanged(j, w, i, j.roots[i].phase, disk.dirs);
      assert WithPhase(j, i, j.roots[i].phase) == j;
    }

    /** cleanupRestore: after the commit only stages remain to be removed. */
    method CleanUp() returns (s: Outcome)
      requires Inv() && Synced() && mem.Some? && mem.value.status == Committed && disk.allowed
      modifies this, disk
      ensures Inv() && IsCommitted(mem) && committed == old(committed) && revoked == old(revoked)
      ensures s == Done ==> Synced() && mem == Some(Journal(Cleaned, []))
      ensures s != Done ==> mem == old(mem)
      ensures s == Done ==> disk.faults == old(disk.faults) && disk.refusals == old(disk.refusals)
      ensures s != Done ==> Trouble(old(disk.faults), old(disk.refusals))
    {
      ghost var j := mem.value;
      assert |Names(j.roots)| == |names|;
      for i := 0 to |mem.value.roots|
        invariant mem == old(mem) && Inv() && Synced() && committed == old(committed) && revoked == old(revoked)
        invariant forall k :: 0 <= k < i ==> disk.dirs[k] == RootDir(archive[k], None)
        invariant disk.allowed && disk.faults == old(disk.faults) && disk.refusals == old(disk.refusals)
      {
        ghost var w := World();
        ghost var count;
        s, count := disk.Cleanup(i);
        CommittedRootChanged(j, w, i, disk.dirs);
        if s != Done {
          return;
        }
        assert j.roots[i] in j.roots;
      }
      s := Save(Journal(Cleaned, []));
    }

    lemma CommittedRootChanged(j: Journal, w: Data, i: nat, dirs: seq<RootDir>)
      requires Consistent(Some(j), w) && j.status.Committed? && i < |j.roots|
      requires |dirs| == |w.dirs| && forall k :: 0 <= k < |dirs| && k != i ==> dirs[k] == w.dirs[k]
      requires i < |dirs| && dirs[i].live == w.dirs[i].live
      ensures Consistent(Some(j), w.(dirs := dirs)) && w.dirs[i].live == w.archive[i]
    {
    }

    /** moveOld within its two saved phases. */
    method MoveOldRoot(i: nat) returns (s: Outcome)
      requires Inv() && Synced() && RootIn(i, {MovingOld}) && mem.value.status.Replacing? && disk.allowed
      modifies disk
      ensures Inv() && disk.OnlyChanged(old(disk.dirs), i)
      ensures s == Done ==> RootOk(Replacing, OldMoved, disk.dirs[i], original[i], archive[i])
      ensures s == Done ==> disk.faults == old(disk.faults) && disk.refusals == old(disk.refusals)
      ensures s != Done ==> Trouble(old(disk.faults), old(disk.refusals))
    {
      ghost var j, w := mem.value, World();
      s := disk.MoveOld(i);
      var d := disk.dirs[i];
      MovedKeepsSplit(w.dirs[i].live, Get(w.dirs[i], Saved).value, d.live, Get(d, Saved).value, original[i]);
      OneRootChanged(j, w, i, MovingOld, disk.dirs);
      assert WithPhase(j, i, MovingOld) == j;
      assert s == Done ==> map[] + Get(d, Saved).value == Get(d, Saved).value;
      assert archive[i] + map[] == archive[i];
    }

    /** moveNew within its two saved phases. */
    method MoveNewRoot(i: nat) returns (s: Outcome)
      requires Inv() && Synced() && RootIn(i, {OldMoved}) && mem.value.status.Replacing? && disk.allowed
      modifies disk
      ensures Inv() && disk.OnlyChanged(old(disk.dirs), i)
      ensures s == Done ==> RootOk(Replacing, Replaced, disk.dirs[i], original[i], archive[i])
      ensures s == Done ==> disk.faults == old(disk.faults) && disk.refusals == old(disk.refusals)
      ensures s != Done ==> Trouble(old(disk.faults), old(disk.refusals))
    {
      ghost var j, w := mem.value, World();
      s := disk.MoveNew(i);
      var d := disk.dirs[i];
      MovedKeepsSplit(Get(w.dirs[i], Incoming).value, w.dirs[i].live, Get(d, Incoming).value, d.live, archive[i]);
      OneRootChanged(j, w, i, OldMoved, disk.dirs);
      assert WithPhase(j, i, OldMoved) == j;
      assert s == Done ==> map[] + d.live == d.live;
    }

    // What a step on root i of a replace promises about the journal.
    twostate predicate ReplacedOnly(i: nat)
      reads this, disk
    {
      && Inv() && mem.Some? && mem.value.status.Replacing? && committed == old(committed)
      && old(mem).Some? && |mem.value.roots| == |old(mem).value.roots|
      && forall k :: 0 <= k < |mem.value.roots| && k != i ==> mem.value.roots[k] == old(mem).value.roots[k]
    }

    method SaveOriginals(i: nat) returns (s: Outcome)
      requires Inv() && Synced() && RootIn(i, {Staging}) && mem.value.status.Replacing? && disk.allowed
      modifies this, disk
      ensures ReplacedOnly(i)
      ensures s == Done ==> Synced() && mem.value.roots[i].phase.OldMoved?
      ensures s == Done ==> disk.faults == old(disk.faults) && disk.refusals == old(disk.refusals)
      ensures s != Done ==> Trouble(old(disk.faults), old(disk.refusals))
    {
      assert Names(mem.value.roots) == names;
      assert mem.value.roots[i].root == names[i];
      assert original[i] + map[] == original[i];
      s := Persist(names[i], MovingOld, i);
      if s != Done {
        return;
      }
      s := MoveOldRoot(i);
      if s != Done {
        return;
      }
      s := Persist(names[i], OldMoved, i);
    }

    method PutArchive(i: nat) returns (s: Outcome)
      requires Inv() && Synced() && RootIn(i, {OldMoved}) && mem.value.status.Replacing? && disk.allowed
      modifies this, disk
      ensures ReplacedOnly(i)
      ensures s == Done ==> Synced() && mem.value.roots[i].phase.Replaced?
      ensures s == Done ==> disk.faults == old(disk.faults) && disk.refusals == old(disk.refusals)
      ensures s != Done ==> Trouble(old(disk.faults), old(disk.refusals))
    {
      assert Names(mem.value.roots) == names;
      assert mem.value.roots[i].root == names[i];
      s := MoveNewRoot(i);
      if s != Done {
        return;
      }
      s := Persist(names[i], Replaced, i);
    }

    /** One turn of the replace loop. */
    method ReplaceRoot(i: nat) returns (s: Outcome)
      requires Inv() && Synced() && RootIn(i, {Staging}) && mem.value.status.Replacing?
      modifies this, disk
      ensures ReplacedOnly(i)
      ensures s == Done ==> Synced() && mem.value.roots[i].phase.Replaced?
      ensures s == Done ==> disk.faults == old(disk.faults) && disk.refusals == old(disk.refusals)
      ensures s != Done ==> Trouble(old(disk.faults), old(disk.refusals))
    {
      s := Check();
      if s != Done {
        return;
      }
      s := SaveOriginals(i);
      if s != Done {
        return;
      }
      s := Check();
      if s != Done {
        return;
      }
      s := PutArchive(i);
    }

    /** The replace loop, then the commit. */
    method ReplaceAll() returns (s: Outcome)
      requires Inv() && Synced() && mem.Some? && mem.value.status.Replacing? && !committed
      requires forall e :: e in mem.value.roots ==> e.phase.Staging?
      modifies this, disk
      ensures s == Done ==> disk.allowed
      ensures Inv() && mem.Some? && mem.value.roots != []
      ensures s == Done ==> Synced() && committed && mem.value.status.Committed?
      ensures s != Done ==> !IsCommitted(mem)
      ensures s == Done ==> disk.faults == old(disk.faults) && disk.refusals == old(disk.refusals)
      ensures s != Done ==> Trouble(old(disk.faults), old(disk.refusals))
    {
      assert |Names(mem.value.roots)| == |names|;
      for i := 0 to |names|
        invariant Inv() && Synced() && mem.Some? && mem.value.status.Replacing? && |mem.value.roots| == |names|
        invariant !committed
        invariant forall k :: 0 <= k < i ==> mem.value.roots[k].phase.Replaced?
        invariant forall k :: i <= k < |names| ==> mem.value.roots[k].phase.Staging?
        invariant disk.faults == old(disk.faults) && disk.refusals == old(disk.refusals)
      {
        s := ReplaceRoot(i);
        if s != Done {
          return;
        }
      }
      s := Check();
      if s != Done {
        return;
      }
      s := Save(Journal(Committed, mem.value.roots));
    }

    // The first k roots have a stage with these entries in new, and an empty old.
    ghost predicate StagedWith(incoming: seq<Files>, k: nat)
      reads this, disk
    {
      && k <= |incoming| && k <= |original| && k <= |disk.dirs|
      && forall i :: 0 <= i < k ==> disk.dirs[i] == RootDir(original[i], Some(Stage(Some(incoming[i]), Some(map[]))))
    }

    function Nothing(): seq<Files> {
      seq(|names|, i => map[])
    }

    ghost predicate Preparation()
      reads this, disk
    {
      && Inv() && Synced() && mem.Some? && mem.value.status.Preparing?
      && |mem.value.roots| == |names| == |disk.dirs| == |original| == |archive|
    }

    /** Stage every root and extract the archive; no live entry is touched. */
    method StageAll() returns (s: Outcome)
      requires Inv() && Synced() && mem.Some? && mem.value.status.Preparing? && disk.allowed
      modifies disk
      ensures Inv() && |names| == |disk.dirs| == |original| == |archive|
      ensures s == Done ==> forall k :: 0 <= k < |names| ==>
              disk.dirs[k] == RootDir(original[k], Some(Stage(Some(archive[k]), Some(map[]))))
      ensures s == Done ==> disk.faults == old(disk.faults) && disk.refusals == old(disk.refusals)
      ensures s != Done ==> Trouble(old(disk.faults), old(disk.refusals))
    {
      assert |Names(mem.value.roots)| == |names|;
      s := MakeStages();
      if s != Done {
        return;
      }
      s := Check();
      if s != Done {
        return;
      }
      s := ExtractAll();
      if s != Done {
        return;
      }
      s := Check();
    }

    method MakeStages() returns (s: Outcome)
      requires Preparation()
      modifies disk
      ensures Preparation()
      ensures s == Done ==> StagedWith(Nothing(), |names|)
      ensures s == Done ==> disk.faults == old(disk.faults) && disk.refusals == old(disk.refusals)
      ensures s != Done ==> Trouble(old(disk.faults), old(disk.refusals))
    {
      hide Consistent;
      s := Done;
      for i := 0 to |names|
        invariant Preparation() && StagedWith(Nothing(), i)
        invariant s == Done && disk.faults == old(disk.faults) && disk.refusals == old(disk.refusals)
      {
        s := Check();
        if s != Done {
          return;
        }
        ghost var w := World();
        s := disk.MakeStage(i);
        PreparingRootChanged(mem.value, w, i, disk.dirs);
        if s != Done {
          return;
        }
      }
    }

    method ExtractAll() returns (s: Outcome)
      requires Preparation() && StagedWith(Nothing(), |names|) && disk.allowed
      modifies disk
      ensures Preparation()
      ensures s == Done ==> StagedWith(archive, |names|)
      ensures s == Done ==> disk.faults == old(disk.faults) && disk.refusals == old(disk.refusals)
      ensures s != Done ==> Trouble(old(disk.faults), old(disk.refusals))
    {
      hide Consistent;
      s := Done;
      for i := 0 to |names|
        invariant Preparation() && StagedWith(archive, i)
        invariant forall k :: i <= k < |names| ==>
                  disk.dirs[k] == RootDir(original[k], Some(Stage(Some(map[]), Some(map[]))))
        invariant disk.allowed
        invariant s == Done && disk.faults == old(disk.faults) && disk.refusals == old(disk.refusals)
      {
        ghost var w := World();
        s := disk.Extract(i, archive[i]);
        PreparingRootChanged(mem.value, w, i, disk.dirs);
        if s != Done {
          return;
        }
      }
    }

    lemma PreparingRootChanged(j: Journal, w: Data, i: nat, dirs: seq<RootDir>)
      requires Consistent(Some(j), w) && j.status.Preparing? && i < |j.roots|
      requires |dirs| == |w.dirs| && forall k :: 0 <= k < |dirs| && k != i ==> dirs[k] == w.dirs[k]
      requires i < |dirs| && dirs[i].live == w.dirs[i].live
      ensures Consistent(Some(j), w.(dirs := dirs)) && w.dirs[i].live == w.original[i]
    {
    }

    /** runRestore from the first journal write on. `data` says whether a data
      * helper existed when it stopped. */
    method Replace() returns (s: Outcome, data: bool)
      requires Inv() && Synced() && mem.None? && !committed
      modifies this, disk
      ensures Inv()
      ensures s == Done ==> Synced() && mem == Some(Journal(Cleaned, [])) && committed
      ensures s == Done ==> disk.faults == old(disk.faults) && disk.refusals == old(disk.refusals)
      ensures data ==> mem.Some? && (mem.value.roots == [] ==> IsCommitted(mem))
      ensures !data ==> s != Done && disk.dirs == old(disk.dirs) && !IsCommitted(mem)
      ensures mem.Some? && !mem.value.status.Cleaned? ==> mem.value.roots != []
      ensures s != Done ==> Trouble(old(disk.faults), old(disk.refusals))
    {
      hide Consistent, RootOk;
      data := false;
      var entries := seq(|names|, i requires 0 <= i < |names| => Item(names[i], Staging));
      BeginPreparing(entries, World());
      s := Save(Journal(Preparing, entries));
      if s != Done {
        return;
      }
      s := Check();
      if s != Done {
        return;
      }
      data := true;
      s := StageAll();
      if s != Done {
        return;
      }
      BeginReplacing(mem.value, World());
      s := Save(Journal(Replacing, mem.value.roots));
      if s != Done {
        return;
      }
      s := ReplaceAll();
      if s != Done {
        return;
      }
      s := CleanUp();
    }

    /** runRestore: a failure before the commit, as far as memory knows, is rolled
      * back at once, which `undone` reports; a crash is left to recovery. A failed
      * run that is not undone was committed, touched no root or met a second
      * trouble, in the undo. */
    method Run() returns (s: Outcome, undone: bool)
      requires Inv() && Synced() && mem.None? && !committed
      modifies this, disk
      ensures Inv()
      ensures s == Done ==> Holds(World(), archive) && Side() == archive
      ensures s == Done ==> disk.faults == old(disk.faults) && disk.refusals == old(disk.refusals)
      ensures undone ==> s == Failed && Holds(World(), original) && Side() == original
      ensures s != Done ==> Trouble(old(disk.faults), old(disk.refusals))
      ensures s == Failed && !undone && !IsCommitted(mem) ==>
              disk.dirs == old(disk.dirs) || TwoTroubles(old(disk.faults), old(disk.refusals))
    {
      var data: bool;
      undone := false;
      s, data := Replace();
      if s != Failed {
        return;
      }
      if data && !mem.value.status.Committed? && !mem.value.status.Cleaned? {
        var undo := Renew();
        if undo == Done {
          undo := Rollback();
        }
        undone := undo == Done;
        if undo == Crashed {
          s := Crashed;
        }
      }
    }

    // A fresh helper may be needed first.
    method Renew() returns (s: Outcome)
      requires Inv()
      modifies this, disk`faults, disk`allowed
      ensures Inv() && mem == old(mem) && disk.faults >= old(disk.faults)
      ensures s != Done ==> disk.faults > old(disk.faults)
    {
      s := Check();
      var renewed: bool := *;
      if s == Done && renewed {
        s := Refresh();
      }
    }

    /** Which data a completed run leaves: the archive's exactly if the commit was
      * saved and not replaced in the row again. */
    ghost function Side(): seq<Files>
      reads this
    {
      if committed && !revoked then archive else original
    }

    /** recoverRestore. */
    method Recover(serverRoots: seq<string>) returns (s: Outcome)
      requires Inv() && Synced()
      modifies this, disk
      ensures Inv() && committed == old(committed) && revoked == old(revoked)
      ensures s == Done ==> Synced() && Holds(World(), Side())
      ensures s == Done ==> disk.faults == old(disk.faults) && disk.refusals == old(disk.refusals)
      ensures disk.faults >= old(disk.faults) && disk.refusals >= old(disk.refusals)
      ensures serverRoots == names && s != Done ==> Trouble(old(disk.faults), old(disk.refusals))
    {
      var journal := ReadJournal(mem, memUnsafe);
      SavedJournalsAreReadable(mem, World());
      if journal.Err? {
        return Failed;
      }
      s := Check();
      if s != Done {
        return;
      }
      if mem.Some? && mem.value.roots != [] {
        assert forall k :: 0 <= k < |mem.value.roots| ==>
          mem.value.roots[k].root == Names(mem.value.roots)[k] == names[k];
        if |serverRoots| != |mem.value.roots| ||
          exists k :: 0 <= k < |mem.value.roots| && mem.value.roots[k].root !in serverRoots {
          return Failed;
        }
        s := Check();
        if s != Done {
          return;
        }
        if mem.value.status.Committed? {
          s := CleanUp();
        } else {
          s := Rollback();
        }
      }
    }
  }

  /** A restore interrupted at any step of the operation or of a recovery, with
    * writes and renames that fail after taking effect, ends all-or-nothing: a run
    * that completes leaves every root exactly its original entries, or every root
    * exactly the archive's. It is the archive's exactly if the commit was saved
    * and not replaced in the row; that happens only if its write was reported
    * failed. A run that fails before the commit, with nothing but one trouble and
    * no end of Ludock, leaves no root changed. `ended` says whether Ludock ended: then it recovered, and
    * what is not completed met trouble since the last restart. */
  method RestoreThroughCrashes(r: Restore, restarts: nat)
    returns (s: Outcome, undone: bool, ended: bool, ghost before: nat)
    requires r.Inv() && r.Synced() && r.mem.None? && !r.committed && !r.unheard
    modifies r, r.disk
    ensures r.Inv()
    ensures s == Done || undone ==> Holds(r.World(), r.Side())
    ensures r.revoked ==> r.unheard
    ensures !r.unheard ==> r.Side() == if r.committed then r.archive else r.original
    ensures s == Failed && !undone && !ended && !IsCommitted(r.mem) ==>
            r.disk.dirs == old(r.disk.dirs) || r.TwoTroubles(old(r.disk.faults), old(r.disk.refusals))
    ensures s != Done ==> r.Trouble(old(r.disk.faults), old(r.disk.refusals))
    ensures s == Crashed && restarts > 0 ==> ended
    ensures s != Done && ended ==> r.disk.faults + r.disk.refusals > before >= old(r.disk.faults + r.disk.refusals)
  {
    before := r.disk.faults + r.disk.refusals;
    s, undone := r.Run();
    ended := false;
    var left := restarts;
    while left > 0
      invariant r.Inv()
      invariant s == Done || undone ==> Holds(r.World(), r.Side())
      invariant s == Failed && !undone && !ended && !IsCommitted(r.mem) ==>
                r.disk.dirs == old(r.disk.dirs) || r.TwoTroubles(old(r.disk.faults), old(r.disk.refusals))
      invariant s != Done ==> r.Trouble(old(r.disk.faults), old(r.disk.refusals))
      invariant r.disk.faults >= old(r.disk.faults) && r.disk.refusals >= old(r.disk.refusals)
      invariant s == Crashed && left < restarts ==> ended
      invariant s != Done && ended ==> r.disk.faults + r.disk.refusals > before
      invariant before >= old(r.disk.faults + r.disk.refusals)
    {
      // Ludock can end whatever the last run made of it, before that is saved.
      var ends: bool := *;
      if s == Crashed || ends {
        r.Reload();
        before := r.disk.faults + r.disk.refusals;
        s := r.Recover(r.names);
        undone, ended := false, true;
      }
      left := left - 1;
    }
  }
}
