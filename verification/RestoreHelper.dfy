/** The restore helper: it moves and removes directory entries one at a time.
  *
  * A root directory is three finite maps: the live entries, and, below the
  * stage directory, the incoming entries ("new") and the saved originals
  * ("old"). Every rename, unlink and mkdir is one atomic step, and any step may
  * fail or be the last one before a crash, with or without effect.
  */
module RestoreHelper {

  import opened Wrappers

  datatype Entry =
    | Regular(content: seq<int>, links: nat)
    | Symlink(target: string)
    | Special
    | Directory(children: map<string, Entry>)

  type Files = map<string, Entry>

  datatype Stage = Stage(incoming: Option<Files>, saved: Option<Files>)

  datatype RootDir = RootDir(live: Files, stage: Option<Stage>)

  datatype Area = Live | Incoming | Saved

  datatype Outcome = Done | Failed | Crashed

  const MAX_DEPTH := 64
  const MAX_REMOVED := 1_000_000
  const MAX_CHILDREN := 1_000_000

  predicate Reserved(name: string) {
    ".ludock-restore-" <= name
  }

  predicate Movable(e: Entry) {
    e.Directory? || (e.Regular? && e.links == 1)
  }

  // The entries of an area, or None while its directory does not exist.
  function Get(d: RootDir, a: Area): Option<Files> {
    match a
    case Live => Some(d.live)
    case Incoming => if d.stage.Some? then d.stage.value.incoming else None
    case Saved => if d.stage.Some? then d.stage.value.saved else None
  }

  function Put(d: RootDir, a: Area, files: Files): RootDir
    requires a.Live? || d.stage.Some?
  {
    match a
    case Live => d.(live := files)
    case Incoming => d.(stage := Some(d.stage.value.(incoming := Some(files))))
    case Saved => d.(stage := Some(d.stage.value.(saved := Some(files))))
  }

  /** Two directories that together hold exactly the entries of `whole`. */
  ghost predicate Split(x: Files, y: Files, whole: Files) {
    x.Keys !! y.Keys && x + y == whole
  }

  /** What an interrupted move of all of src0 into dst0 can leave: each entry is
    * in exactly one of the two directories, unchanged, and nothing that was in
    * the destination is lost or replaced. */
  ghost predicate Moved(src0: Files, dst0: Files, src: Files, dst: Files) {
    && (forall n :: n in src ==> n in src0 && src[n] == src0[n])
    && (forall n :: n in dst0 ==> n in dst && dst[n] == dst0[n])
    && (forall n :: n in dst && n !in dst0 ==> n in src0 && n !in src && dst[n] == src0[n])
    && (forall n :: n in src0 && n !in src ==> n in dst && n !in dst0)
  }

  lemma MovedKeepsSplit(src0: Files, dst0: Files, src: Files, dst: Files, whole: Files)
    requires Moved(src0, dst0, src, dst) && Split(src0, dst0, whole)
    ensures Split(src, dst, whole)
  {
  }

  /** What an interrupted removal can leave of an entry: the entry itself or,
    * for a directory, a directory whose remaining children are remnants. */
  ghost predicate Remnant(left: Entry, whole: Entry)
    decreases whole
  {
    left == whole ||
    (left.Directory? && whole.Directory? && left.children.Keys <= whole.children.Keys &&
     forall n :: n in left.children ==> Remnant(left.children[n], whole.children[n]))
  }

  ghost predicate Remnants(left: Files, whole: Files) {
    left.Keys <= whole.Keys && forall n :: n in left ==> Remnant(left[n], whole[n])
  }

  lemma {:induction false} RemnantTransitive(a: Entry, b: Entry, c: Entry)
    requires Remnant(a, b) && Remnant(b, c)
    ensures Remnant(a, c)
    decreases c
  {
    if a != b && b != c {
      forall n | n in a.children
        ensures Remnant(a.children[n], c.children[n])
      {
        RemnantTransitive(a.children[n], b.children[n], c.children[n]);
      }
    }
  }

  lemma RemnantsTransitive(a: Files, b: Files, c: Files)
    requires Remnants(a, b) && Remnants(b, c)
    ensures Remnants(a, c)
  {
    forall n | n in a
      ensures Remnant(a[n], c[n])
    {
      RemnantTransitive(a[n], b[n], c[n]);
    }
  }

  // Entries a move refuses.
  ghost predicate MoveRefused(src: Files, dst: Files) {
    |src| > MAX_CHILDREN || exists n :: n in src && (Reserved(n) || !Movable(src[n]) || n in dst)
  }

  // Without both directories nothing is moved.
  ghost predicate OpenRefused(d: RootDir, from: Area, to: Area) {
    Get(d, from).None? || Get(d, to).None? || MoveRefused(Get(d, from).value, Get(d, to).value)
  }

  // Trees that a removal refuses: with an entry of another kind, or too deep.
  ghost predicate HasSpecial(e: Entry) {
    e.Special? || (e.Directory? && exists n :: n in e.children && HasSpecial(e.children[n]))
  }

  ghost predicate Deeper(e: Entry, levels: int) {
    levels < 0 || (e.Directory? && exists n :: n in e.children && Deeper(e.children[n], levels - 1))
  }

  // A removal stops at such a tree, or after a million entries.
  ghost predicate RemovalRefused(e: Entry, levels: int, count: nat) {
    HasSpecial(e) || Deeper(e, levels) || count > 1_000_000
  }

  class Disk {
    var dirs: seq<RootDir>
    // Steps that did not simply succeed: I/O errors and crashes.
    ghost var faults: nat
    // Times the helper refused data it considers unsafe to touch.
    ghost var refusals: nat
    // Whether the check that the next command needs has passed.
    ghost var allowed: bool

    constructor (dirs: seq<RootDir>)
      ensures this.dirs == dirs && faults == 0 && refusals == 0
    {
      this.dirs := dirs;
      faults := 0;
      refusals := 0;
      allowed := false;
    }

    /** The fate of one atomic step. One that fails, or crashes, may have taken
      * effect. */
    method Fate() returns (s: Outcome)
      modifies `faults
      ensures faults == old(faults) + if s == Done then 0 else 1
    {
      var fine: bool, alive: bool := *, *;
      s := if fine then Done else if alive then Failed else Crashed;
      faults := faults + if s == Done then 0 else 1;
    }

    ghost predicate OnlyChanged(before: seq<RootDir>, i: nat)
      reads this
    {
      |dirs| == |before| && forall k :: 0 <= k < |dirs| && k != i ==> dirs[k] == before[k]
    }

    /** moveContents: renames one entry at a time. src and dst are what a
      * restart would find: every outcome leaves each entry whole on exactly one
      * side, and success empties the source. */
    method MoveContents(src0: Files, dst0: Files) returns (src: Files, dst: Files, s: Outcome)
      modifies `faults, `refusals
      ensures Moved(src0, dst0, src, dst)
      ensures s == Done ==> src == map[]
      ensures faults >= old(faults) && refusals >= old(refusals)
      ensures refusals > old(refusals) ==> MoveRefused(src0, dst0)
      ensures s != Done <==> faults > old(faults) || refusals > old(refusals)
    {
      src, dst := src0, dst0;
      var names := src.Keys;
      if |names| > MAX_CHILDREN {
        refusals := refusals + 1;
        return src, dst, Failed;
      }
      while names != {}
        invariant Moved(src0, dst0, src, dst)
        invariant names == src.Keys
        invariant faults == old(faults) && refusals == old(refusals)
        decreases names
      {
        var name :| name in names;
        if Reserved(name) || !Movable(src[name]) || name in dst {
          refusals := refusals + 1;
          return src, dst, Failed;
        }
        s := Fate();
        var effective: bool := *;
        if s == Done || effective {
          MovedOne(src0, dst0, src, dst, name);
          src, dst := src - {name}, dst[name := src[name]];
        }
        if s != Done {
          return;
        }
        names := names - {name};
      }
      s := Done;
    }

    lemma MovedOne(src0: Files, dst0: Files, src: Files, dst: Files, name: string)
      requires Moved(src0, dst0, src, dst) && name in src && name !in dst
      ensures Moved(src0, dst0, src - {name}, dst[name := src[name]])
    {
    }

    /** removeEntry on one directory tree. `left` is what a restart would find;
      * a file is never changed, only unlinked. */
    method RemoveEntry(entry: Entry, depth: nat, removed: nat) returns (left: Option<Entry>, count: nat, s: Outcome)
      modifies `faults, `refusals
      ensures s == Done ==> left.None?
      ensures left.Some? ==> Remnant(left.value, entry)
      ensures count > removed
      ensures faults >= old(faults) && refusals >= old(refusals)
      ensures refusals > old(refusals) ==> RemovalRefused(entry, 64 - depth, count)
      ensures s != Done <==> faults > old(faults) || refusals > old(refusals)
      decreases entry
    {
      count := removed + 1;
      left := Some(entry);
      if depth > MAX_DEPTH || count > MAX_REMOVED {
        refusals := refusals + 1;
        return left, count, Failed;
      }
      if entry.Directory? {
        var children := entry.children;
        var names := children.Keys;
        while names != {}
          invariant names <= entry.children.Keys && names <= children.Keys
          invariant children.Keys <= names
          invariant forall n :: n in children ==> n in entry.children && children[n] == entry.children[n]
          invariant left == Some(Directory(children))
          invariant count > removed
          invariant faults == old(faults) && refusals == old(refusals)
          decreases names
        {
          var name :| name in names;
          var rest: Option<Entry>;
          rest, count, s := RemoveEntry(entry.children[name], depth + 1, count);
          children := if rest.None? then children - {name} else children[name := rest.value];
          left := Some(Directory(children));
          if s != Done {
            ChildRefused(entry, name, 64 - depth, count);
            return;
          }
          names := names - {name};
        }
      } else if entry.Special? {
        refusals := refusals + 1;
        return left, count, Failed;
      }
      s := Fate();
      var effective: bool := *;
      if s == Done || effective {
        left := None;
      }
    }

    lemma ChildRefused(entry: Entry, name: string, levels: int, count: nat)
      requires entry.Directory? && name in entry.children
      ensures RemovalRefused(entry.children[name], levels - 1, count) ==> RemovalRefused(entry, levels, count)
    {
    }

    /** rollbackClean: remove every live entry. */
    method RollbackClean(i: nat) returns (s: Outcome, ghost count: nat)
      requires i < |dirs| && allowed
      modifies `dirs, `faults, `refusals
      ensures OnlyChanged(old(dirs), i)
      ensures dirs[i].stage == old(dirs[i].stage)
      ensures Remnants(dirs[i].live, old(dirs[i].live))
      ensures s == Done ==> dirs[i].live == map[]
      // The saved originals must be there before anything is deleted.
      ensures Get(old(dirs[i]), Saved).None? ==> dirs == old(dirs) && s != Done
      ensures faults >= old(faults) && refusals >= old(refusals)
      ensures refusals > old(refusals) ==>
                Get(old(dirs[i]), Saved).None? ||
                exists n :: n in old(dirs[i].live) &&
                  (Reserved(n) || RemovalRefused(old(dirs[i].live)[n], 64, count))
      ensures s != Done <==> faults > old(faults) || refusals > old(refusals)
    {
      count := 0;
      if Get(dirs[i], Saved).None? {
        refusals := refusals + 1;
        return Failed, count;
      }
      var names := dirs[i].live.Keys;
      var removed := 0;
      while names != {}
        invariant OnlyChanged(old(dirs), i)
        invariant dirs[i].stage == old(dirs[i].stage)
        invariant Remnants(dirs[i].live, old(dirs[i].live))
        invariant names == dirs[i].live.Keys
        invariant forall n :: n in names ==> n in old(dirs[i].live) && dirs[i].live[n] == old(dirs[i].live)[n]
        invariant faults == old(faults) && refusals == old(refusals)
        decreases names
      {
        var name :| name in names;
        if Reserved(name) {
          refusals := refusals + 1;
          return Failed, count;
        }
        var left: Option<Entry>;
        left, removed, s := RemoveEntry(dirs[i].live[name], 0, removed);
        count := removed;
        RemnantOf(left, dirs[i].live, old(dirs[i].live), name);
        var rest := if left.None? then dirs[i].live - {name} else dirs[i].live[name := left.value];
        dirs := dirs[i := dirs[i].(live := rest)];
        if s != Done {
          return;
        }
        names := names - {name};
      }
      s := Done;
    }

    lemma RemnantOf(left: Option<Entry>, now: Files, before: Files, name: string)
      requires name in now && Remnants(now, before)
      requires left.Some? ==> Remnant(left.value, now[name])
      ensures Remnants(now - {name}, before)
      ensures left.Some? ==> Remnants(now[name := left.value], before)
    {
      if left.Some? {
        RemnantTransitive(left.value, now[name], before[name]);
      }
    }

    /** moveOld, moveNew and rollbackOld open the stage and then move. */
    method MoveOld(i: nat) returns (s: Outcome)
      requires i < |dirs| && allowed
      modifies this
      ensures OnlyChanged(old(dirs), i)
      ensures MoveResult(old(dirs[i]), dirs[i], Live, Saved, s)
      ensures faults >= old(faults) && refusals >= old(refusals)
      ensures refusals > old(refusals) ==> OpenRefused(old(dirs[i]), Live, Saved)
      ensures s != Done <==> faults > old(faults) || refusals > old(refusals)
    {
      s := OpenAndMove(i, Live, Saved);
    }

    method MoveNew(i: nat) returns (s: Outcome)
      requires i < |dirs| && allowed
      modifies this
      ensures OnlyChanged(old(dirs), i)
      ensures MoveResult(old(dirs[i]), dirs[i], Incoming, Live, s)
      ensures faults >= old(faults) && refusals >= old(refusals)
      ensures refusals > old(refusals) ==> OpenRefused(old(dirs[i]), Incoming, Live)
      ensures s != Done <==> faults > old(faults) || refusals > old(refusals)
    {
      s := OpenAndMove(i, Incoming, Live);
    }

    method RollbackOld(i: nat) returns (s: Outcome)
      requires i < |dirs| && allowed
      modifies `dirs, `faults, `refusals
      ensures OnlyChanged(old(dirs), i)
      ensures MoveResult(old(dirs[i]), dirs[i], Saved, Live, s)
      ensures faults >= old(faults) && refusals >= old(refusals)
      ensures refusals > old(refusals) ==> OpenRefused(old(dirs[i]), Saved, Live)
      ensures s != Done <==> faults > old(faults) || refusals > old(refusals)
    {
      s := OpenAndMove(i, Saved, Live);
    }

    method OpenAndMove(i: nat, from: Area, to: Area) returns (s: Outcome)
      requires i < |dirs| && from != to
      modifies `dirs, `faults, `refusals
      ensures OnlyChanged(old(dirs), i)
      ensures MoveResult(old(dirs[i]), dirs[i], from, to, s)
      ensures faults >= old(faults) && refusals >= old(refusals)
      ensures refusals > old(refusals) ==> OpenRefused(old(dirs[i]), from, to)
      ensures s != Done <==> faults > old(faults) || refusals > old(refusals)
    {
      if Get(dirs[i], from).None? || Get(dirs[i], to).None? {
        refusals := refusals + 1;
        return Failed;
      }
      var src, dst;
      src, dst, s := MoveContents(Get(dirs[i], from).value, Get(dirs[i], to).value);
      dirs := dirs[i := Put(Put(dirs[i], from, src), to, dst)];
    }

    /** stage: create the stage directory, then "new" and "old" inside it. */
    method MakeStage(i: nat) returns (s: Outcome)
      requires i < |dirs| && allowed
      modifies this
      ensures OnlyChanged(old(dirs), i)
      ensures dirs[i].live == old(dirs[i].live)
      ensures old(dirs[i].stage).Some? ==> dirs == old(dirs) && s != Done
      ensures s == Done ==> dirs[i].stage == Some(Stage(Some(map[]), Some(map[])))
      ensures faults >= old(faults) && refusals >= old(refusals)
      ensures refusals > old(refusals) ==> old(dirs[i].stage).Some?
      ensures s != Done <==> faults > old(faults) || refusals > old(refusals)
    {
      if dirs[i].stage.Some? {
        refusals := refusals + 1;
        return Failed;
      }
      var steps := [Stage(None, None), Stage(Some(map[]), None), Stage(Some(map[]), Some(map[]))];
      for k := 0 to 3
        invariant OnlyChanged(old(dirs), i)
        invariant dirs[i].live == old(dirs[i].live)
        invariant k == 3 ==> dirs[i].stage == Some(steps[2])
        invariant faults == old(faults) && refusals == old(refusals)
      {
        s := Fate();
        var effective: bool := *;
        if s == Done || effective {
          dirs := dirs[i := dirs[i].(stage := Some(steps[k]))];
        }
        if s != Done {
          return;
        }
      }
      s := Done;
    }

    /** cleanup: empty the stage, then remove it. Live data is never touched. */
    method Cleanup(i: nat) returns (s: Outcome, ghost count: nat)
      requires i < |dirs| && allowed
      modifies `dirs, `faults, `refusals
      ensures OnlyChanged(old(dirs), i)
      ensures dirs[i].live == old(dirs[i].live)
      ensures s == Done ==> dirs[i].stage.None?
      ensures faults >= old(faults) && refusals >= old(refusals)
      ensures refusals > old(refusals) ==>
                exists area :: area != Live && Get(old(dirs[i]), area).Some? &&
                  RemovalRefused(Directory(Get(old(dirs[i]), area).value), 64, count)
      ensures s != Done <==> faults > old(faults) || refusals > old(refusals)
    {
      count := 0;
      if dirs[i].stage.None? {
        return Done, count;
      }
      var stage := dirs[i].stage.value;
      var removed := 0;
      if stage.incoming.Some? {
        var left: Option<Entry>;
        left, removed, s := RemoveEntry(Directory(stage.incoming.value), 0, removed);
        count := removed;
        assert Get(old(dirs[i]), Incoming) == Some(stage.incoming.value);
        stage := stage.(incoming := Remaining(left));
        dirs := dirs[i := dirs[i].(stage := Some(stage))];
        if s != Done {
          return;
        }
      }
      if stage.saved.Some? {
        var left: Option<Entry>;
        left, removed, s := RemoveEntry(Directory(stage.saved.value), 0, removed);
        count := removed;
        assert Get(old(dirs[i]), Saved) == Some(stage.saved.value);
        stage := stage.(saved := Remaining(left));
        dirs := dirs[i := dirs[i].(stage := Some(stage))];
        if s != Done {
          return;
        }
      }
      s := Fate();
      var effective: bool := *;
      if s == Done || effective {
        dirs := dirs[i := dirs[i].(stage := None)];
      }
    }

    /** The extractor fills "new". Only a completed, checksummed extraction
      * reports success; anything else leaves arbitrary staged entries. */
    method Extract(i: nat, archive: Files) returns (s: Outcome)
      requires i < |dirs| && allowed
      modifies `dirs, `faults, `refusals
      ensures OnlyChanged(old(dirs), i)
      ensures dirs[i].live == old(dirs[i].live)
      ensures s == Done ==>
              old(dirs[i].stage).Some? && dirs[i].stage == Some(old(dirs[i].stage).value.(incoming := Some(archive)))
      ensures faults >= old(faults) && refusals >= old(refusals)
      ensures refusals > old(refusals) ==> Get(old(dirs[i]), Incoming).None?
      ensures s != Done <==> faults > old(faults) || refusals > old(refusals)
    {
      if Get(dirs[i], Incoming).None? {
        refusals := refusals + 1;
        return Failed;
      }
      s := Fate();
      var partial: Files := *;
      dirs := dirs[i := Put(dirs[i], Incoming, if s == Done then archive else partial)];
    }
  }

  function Remaining(left: Option<Entry>): Option<Files> {
    if left.Some? && left.value.Directory? then Some(left.value.children) else None
  }

  /** The result of a whole-directory move between two areas of a root. */
  ghost predicate MoveResult(before: RootDir, after: RootDir, from: Area, to: Area, s: Outcome) {
    if Get(before, from).None? || Get(before, to).None? then
      after == before && s != Done
    else
      && Get(after, from).Some? && Get(after, to).Some?
      && after == Put(Put(before, from, Get(after, from).value), to, Get(after, to).value)
      && Moved(Get(before, from).value, Get(before, to).value, Get(after, from).value, Get(after, to).value)
      && (s == Done ==> Get(after, from).value == map[])
  }
}
