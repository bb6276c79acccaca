/** The container swap of an image update: staged, persisted steps that are
  * undone until the original's removal begins and only finished after it. */
module UpdateSwap {

  import opened Wrappers
  import opened DockerHost

  datatype Stage = Creating | Starting | Replacing | Replaced

  datatype SwapState = SwapState(stage: Stage, name: string, temporary: string, replacement: Option<Id>, policy: string)

  datatype Config = Config(original: Id, name: string, temporary: string, policy: string, operation: string)

  /** Settled means reconciled; Transient failures are retried; the others are
    * reported to the owner. Interrupted is a crash or a shutdown. */
  datatype Verdict =
    | Settled
    | Transient
    | Interrupted
    | OriginalMissing
    | ReplacementMissing
    | ServerMissing
    | PolicyNotRestored
    | Unnamed
    | InvalidState
    | Refused

  function Rank(stage: Stage): nat {
    match stage
    case Creating => 0
    case Starting => 1
    case Replacing => 2
    case Replaced => 3
  }

  predicate Reached(saved: Option<SwapState>, stage: Stage) {
    saved.Some? && Rank(saved.value.stage) >= Rank(stage)
  }

  function Effective(policy: string): string {
    if policy == "" then NO_RESTART else policy
  }

  ghost predicate Exists(id: Option<Id>, cs: Containers) {
    id.Some? && id.value in cs
  }

  /** What holds of the containers and the saved swap in every state a crash or
    * a daemon restart can leave. `made` is the replacement Docker created,
    * whether or not its ID was ever saved. */
  ghost predicate Sound(cs: Containers, saved: Option<SwapState>, made: Option<Id>, c: Config, meddled: bool) {
    && (forall a, b :: a in cs && b in cs && cs[a].name == cs[b].name ==> a == b)
    && (forall id :: id in cs && cs[id].owner == c.operation ==> made == Some(id))
    && (forall id :: id in cs && cs[id].name == c.name ==> id == c.original || made == Some(id))
    && match saved
       case None => made.None? && OriginalKept(cs, c, meddled)
       case Some(s) =>
         && s.name == c.name && s.temporary == c.temporary && s.policy == c.policy
         && (s.replacement.Some? ==> s.replacement == made)
         && (!s.stage.Creating? ==> s.replacement.Some?)
         && (made.Some? ==> made.value != c.original)
         && (Exists(made, cs) ==> cs[made.value].owner == c.operation)
         && NeitherRestarts(cs, s.stage, made, c)
         && match s.stage
            case Creating => OriginalKept(cs, c, meddled) && (Exists(made, cs) ==> cs[made.value].name == c.temporary)
            case Starting => OriginalKept(cs, c, meddled)
            case Replacing => ReplacementKept(cs, made, meddled)
            case Replaced =>
              && ReplacementKept(cs, made, meddled) && c.original !in cs
              && (Exists(made, cs) ==> TookOver(cs[made.value], c))
  }

  ghost predicate OriginalKept(cs: Containers, c: Config, meddled: bool) {
    && (!meddled ==> c.original in cs)
    && (c.original in cs ==>
          cs[c.original].name == c.name && !cs[c.original].dead && cs[c.original].owner != c.operation)
  }

  ghost predicate ReplacementKept(cs: Containers, made: Option<Id>, meddled: bool) {
    (!meddled ==> Exists(made, cs)) && (Exists(made, cs) ==> !cs[made.value].dead)
  }

  ghost predicate TookOver(replacement: Container, c: Config) {
    replacement.name == c.name && replacement.policy == Effective(c.policy)
  }

  /** While both containers exist both have restart policy "no", and the one
    * whose turn it is not is stopped. */
  ghost predicate NeitherRestarts(cs: Containers, stage: Stage, made: Option<Id>, c: Config) {
    Exists(made, cs) && c.original in cs ==>
      && cs[made.value].policy == NO_RESTART && cs[c.original].policy == NO_RESTART
      && !(if stage.Creating? then cs[made.value] else cs[c.original]).running
  }

  /** Original and replacement never run together. */
  lemma NeverBothRunning(cs: Containers, saved: Option<SwapState>, made: Option<Id>, c: Config, meddled: bool)
    requires Sound(cs, saved, made, c, meddled)
    ensures !(Exists(made, cs) && c.original in cs && cs[made.value].running && cs[c.original].running)
    ensures Exists(made, cs) && c.original in cs ==> cs[made.value].policy == NO_RESTART == cs[c.original].policy
  {
  }

  /** The end of a swap: the original alone under its own name and policy if
    * `replacing` was never saved, the replacement alone under them if it was. */
  ghost predicate Converged(cs: Containers, saved: Option<SwapState>, made: Option<Id>, c: Config) {
    if Reached(saved, Replacing) then
      saved.value.stage.Replaced? && c.original !in cs && (Exists(made, cs) ==> TookOver(cs[made.value], c))
    else
      && !Exists(made, cs)
      && (saved.Some? ==>
            c.original in cs && cs[c.original].name == c.name && cs[c.original].policy == Effective(c.policy))
  }

  /** A settled swap leaves exactly one server container, with the original's
    * name and restart policy: the replacement if and only if `replacing` was
    * saved. */
  lemma ExactlyOneSurvives(cs: Containers, saved: Option<SwapState>, made: Option<Id>, c: Config)
    requires Sound(cs, saved, made, c, false) && saved.Some? && Converged(cs, saved, made, c)
    ensures Exists(made, cs) <==> Reached(saved, Replacing)
    ensures c.original in cs <==> !Reached(saved, Replacing)
    ensures var survivor := if Reached(saved, Replacing) then made.value else c.original;
            cs[survivor].name == c.name && cs[survivor].policy == if c.policy == "" then "no" else c.policy
  {
  }

  /** The row is as far as memory, or one write further: a write that was saved
    * although it was reported failed. */
  predicate Behind(mem: Option<SwapState>, row: Option<SwapState>) {
    && (mem.Some? ==> Reached(row, mem.value.stage))
    && (Reached(row, Starting) ==> mem.Some?)
    && (row.Some? && row.value.replacement.Some? ==> mem.Some?)
    && (Reached(row, Replaced) ==> Reached(mem, Replacing))
  }

  /** What the row says of the swap and of the original. */
  ghost predicate RowFits(cs: Containers, row: Option<SwapState>, made: Option<Id>, c: Config) {
    row.Some? ==>
      var s := row.value;
      && s.name == c.name && s.temporary == c.temporary && s.policy == c.policy
      && (s.replacement.Some? ==> s.replacement == made)
      && (!s.stage.Creating? ==> s.replacement.Some?)
      && (!s.stage.Creating? && Exists(made, cs) && c.original in cs ==> !cs[c.original].running)
      && (s.stage.Replaced? ==> c.original !in cs && (Exists(made, cs) ==> TookOver(cs[made.value], c)))
  }

  /** What every step keeps: the containers are sound for the swap in memory, and
    * the row may be one write ahead of it. */
  ghost predicate Tracked(cs: Containers, mem: Option<SwapState>, row: Option<SwapState>, made: Option<Id>,
                          c: Config, meddled: bool) {
    Sound(cs, mem, made, c, meddled) && Behind(mem, row) && RowFits(cs, row, made, c)
  }

  /** The row says that the replacement stays, and an undo from memory has begun
    * to remove it. */
  ghost predicate Torn(cs: Containers, mem: Option<SwapState>, row: Option<SwapState>, made: Option<Id>,
                       meddled: bool)
  {
    Reached(row, Replacing) && !Reached(mem, Replacing) && !ReplacementKept(cs, made, meddled)
  }

  /** A restart finds a sound state exactly unless the row is torn. */
  lemma RowIsSound(cs: Containers, mem: Option<SwapState>, row: Option<SwapState>, made: Option<Id>,
                   c: Config, meddled: bool)
    requires Tracked(cs, mem, row, made, c, meddled)
    ensures Sound(cs, row, made, c, meddled) <==> !Torn(cs, mem, row, made, meddled)
  {
  }

  /** Torn, and the removal left the replacement dead. */
  predicate HalfUndone(cs: Containers, mem: Option<SwapState>, row: Option<SwapState>) {
    && Reached(row, Replacing) && !Reached(mem, Replacing)
    && row.value.replacement.Some? && row.value.replacement.value in cs && cs[row.value.replacement.value].dead
  }

  /** A torn row whose replacement is gone only looks as if another manager had
    * removed the replacement. Only one whose replacement is dead is unsound. */
  lemma HalfUndoneIsUnsound(cs: Containers, mem: Option<SwapState>, row: Option<SwapState>, made: Option<Id>,
                            c: Config, meddled: bool)
    requires Tracked(cs, mem, row, made, c, meddled)
    ensures HalfUndone(cs, mem, row) ==> Torn(cs, mem, row, made, meddled)
    ensures Sound(cs, row, made, c, true) <==> !HalfUndone(cs, mem, row)
    ensures Torn(cs, mem, row, made, meddled) && !HalfUndone(cs, mem, row) ==>
              !Exists(made, cs) && OriginalKept(cs, c, meddled)
  {
  }

  // Before `replacing` only another manager can have removed the original, and
  // while it is there the replacement does not restart.
  lemma BothThere(cs: Containers, mem: Option<SwapState>, row: Option<SwapState>, made: Option<Id>, c: Config,
                  meddled: bool)
    requires Tracked(cs, mem, row, made, c, meddled) && !Reached(mem, Replacing)
    ensures !meddled ==> c.original in cs
    ensures c.original in cs && Exists(made, cs) ==> cs[made.value].policy == NO_RESTART
  {
  }

  /** Daemon restarts, exits and removals by others keep every state sound. */
  lemma DisturbanceIsSound(before: Containers, after: Containers, mem: Option<SwapState>, row: Option<SwapState>,
                           made: Option<Id>, c: Config, meddledBefore: bool, meddled: bool)
    requires Tracked(before, mem, row, made, c, meddledBefore) && Undisturbed(before, after)
    requires (meddledBefore ==> meddled) && (!meddled ==> after.Keys == before.Keys)
    ensures Tracked(after, mem, row, made, c, meddled)
  {
  }

  // What the stage allows removing: the replacement until `replacing`, the
  // original from then on.
  ghost predicate MayRemove(id: Id, mem: Option<SwapState>, made: Option<Id>, c: Config) {
    mem.Some? &&
    if Reached(mem, Replacing) then mem.value.stage.Replacing? && id == c.original && made != Some(id)
    else made == Some(id)
  }

  lemma RemovalIsSound(cs: Containers, id: Id, mem: Option<SwapState>, row: Option<SwapState>, made: Option<Id>,
                       c: Config, meddled: bool)
    requires Tracked(cs, mem, row, made, c, meddled) && MayRemove(id, mem, made, c)
    ensures Tracked(cs - {id}, mem, row, made, c, meddled)
    ensures id in cs ==> Tracked(cs[id := cs[id].(running := false, dead := true)], mem, row, made, c, meddled)
  {
  }

  lemma PolicyKeepsSound(cs: Containers, id: Id, policy: string, saved: Option<SwapState>, made: Option<Id>,
                         c: Config, meddled: bool)
    requires Sound(cs, saved, made, c, meddled) && id in cs && saved.Some? && !saved.value.stage.Replaced?
    requires policy != NO_RESTART ==> !Exists(made, cs) || c.original !in cs
    ensures Sound(cs[id := cs[id].(policy := policy)], saved, made, c, meddled)
  {
  }

  lemma PolicyIsSound(cs: Containers, id: Id, policy: string, mem: Option<SwapState>, row: Option<SwapState>,
                      made: Option<Id>, c: Config, meddled: bool)
    requires Tracked(cs, mem, row, made, c, meddled) && id in cs && mem.Some? && !mem.value.stage.Replaced?
    requires policy != NO_RESTART ==> !Exists(made, cs) || c.original !in cs
    requires id == c.original || policy == Effective(c.policy)
    ensures Tracked(cs[id := cs[id].(policy := policy)], mem, row, made, c, meddled)
  {
    hide Sound, Behind, NeitherRestarts;
    PolicyKeepsSound(cs, id, policy, mem, made, c, meddled);
  }

  lemma RenameIsSound(cs: Containers, id: Id, mem: Option<SwapState>, row: Option<SwapState>, made: Option<Id>,
                      c: Config, meddled: bool)
    requires Tracked(cs, mem, row, made, c, meddled) && id in cs && made == Some(id) && c.original !in cs
    requires mem.Some? && mem.value.stage.Replacing? && !NameTaken(cs, c.name)
    ensures Tracked(cs[id := cs[id].(name := c.name)], mem, row, made, c, meddled)
  {
  }

  lemma CreationIsSound(cs: Containers, id: Id, image: string, mem: Option<SwapState>, row: Option<SwapState>,
                        c: Config, meddled: bool)
    requires Tracked(cs, mem, row, None, c, meddled) && id !in cs && id != c.original && !NameTaken(cs, c.temporary)
    requires mem.Some? && mem.value.stage.Creating? && mem.value.replacement.None? && c.name != c.temporary
    requires c.original in cs ==> cs[c.original].policy == NO_RESTART
    ensures Tracked(cs[id := Fresh(c.temporary, NO_RESTART, image, c.operation)], mem, row, Some(id), c, meddled)
  {
  }

  /** A replacement that is there, beside a stopped original, may take over. */
  lemma PolicyKept(cs: Containers, mem: Option<SwapState>, row: Option<SwapState>, made: Option<Id>, c: Config,
                   meddled: bool)
    requires Tracked(cs, mem, row, made, c, meddled) && mem.Some?
    ensures mem.value.policy == c.policy
    ensures mem.value.stage.Replacing? ==> ReplacementKept(cs, made, meddled)
  {
  }

  lemma ReplacedIsSound(cs: Containers, mem: Option<SwapState>, row: Option<SwapState>, made: Option<Id>, c: Config,
                        meddled: bool)
    requires Tracked(cs, mem, row, made, c, meddled) && mem.Some? && mem.value.stage.Replacing?
    requires c.original !in cs && Exists(made, cs) && TookOver(cs[made.value], c)
    ensures Sound(cs, Some(mem.value.(stage := Replaced)), made, c, meddled)
    ensures Behind(mem, Some(mem.value.(stage := Replaced)))
  {
  }

  lemma ReplacingIsSound(cs: Containers, s: SwapState, made: Option<Id>, c: Config, meddled: bool)
    requires Tracked(cs, Some(s), Some(s), made, c, meddled) && !Reached(Some(s), Replacing) && s.replacement == made
    requires made.Some? && ReplacementKept(cs, made, meddled)
    requires c.original in cs && !cs[c.original].running
    ensures Sound(cs, Some(s.(stage := Replacing)), made, c, meddled)
    ensures Behind(Some(s), Some(s.(stage := Replacing)))
  {
  }

  lemma StartIsSound(cs: Containers, id: Id, at: nat, mem: Option<SwapState>, row: Option<SwapState>,
                     made: Option<Id>, c: Config, meddled: bool)
    requires Tracked(cs, mem, row, made, c, meddled) && id in cs && made == Some(id)
    requires mem.Some? && mem.value.stage.Starting?
    ensures Tracked(cs[id := cs[id].(running := true, startedAt := at)], mem, row, made, c, meddled)
  {
  }

  /** An input on which the swap is lost. The write of `replacing` was saved but
    * reported failed, so the update is undone from `starting`, and the removal of
    * the replacement leaves it dead when Ludock crashes. The restart reads
    * `replacing`, which allows removing the original: no usable container is left. */
  lemma SwapCanBeLost()
    ensures var c := Config(0, "game", "game-new", "always", "update");
            var original := Container("game", false, false, NO_RESTART, 1, "old", "", Unchecked);
            var replacement := Container("game-new", true, false, NO_RESTART, 2, "new", "update", Unchecked);
            var starting := Some(SwapState(Starting, "game", "game-new", Some(1), "always"));
            var replacing := Some(SwapState(Replacing, "game", "game-new", Some(1), "always"));
            var before := map[0 := original, 1 := replacement];
            var halfway := map[0 := original, 1 := replacement.(running := false, dead := true)];
            && Sound(before, starting, Some(1), c, false) && Sound(before, replacing, Some(1), c, false)
            && Tracked(before, starting, replacing, Some(1), c, false) && MayRemove(1, starting, Some(1), c)
            && halfway == before[1 := before[1].(running := false, dead := true)]
            && Tracked(halfway, starting, replacing, Some(1), c, false) && HalfUndone(halfway, starting, replacing)
            && Sound(halfway, starting, Some(1), c, false) && !Sound(halfway, replacing, Some(1), c, false)
            && MayRemove(0, replacing, Some(1), c) && (forall id :: id in halfway - {0} ==> halfway[id].dead)
  {
  }

  predicate Same(replacement: Container, since: nat) {
    replacement.running && replacement.startedAt == since
  }

  predicate Failing(replacement: Container) {
    !replacement.running || replacement.health.Unhealthy?
  }

  predicate Accepts(health: Health, looks: nat, settlePolls: nat, pendingPolls: nat) {
    match health
    case Healthy => true
    case Unhealthy => false
    case Unchecked => looks >= settlePolls
    case Pending => looks >= pendingPolls
  }

  class Update {
    const host: Host
    const config: Config
    const image: string
    const initiallyRunning: bool
    const stoppedStartedAt: nat
    // The swap in memory, and the one a restart reads.
    var mem: Option<SwapState>
    var row: Option<SwapState>
    ghost var made: Option<Id>
    // Whether the replacement was ever started.
    ghost var ran: bool
    // Whether a restart found `replacing` saved and the replacement removed by
    // an undo.
    ghost var undone: bool

    constructor (host: Host, config: Config, image: string, initiallyRunning: bool, stoppedStartedAt: nat)
      requires host.Valid() && config.name != config.temporary
      requires Sound(host.containers, None, None, config, host.meddled)
      ensures Inv() && Begun() && this.host == host && this.config == config && this.image == image
      ensures this.initiallyRunning == initiallyRunning && this.stoppedStartedAt == stoppedStartedAt
    {
      this.host, this.config, this.image := host, config, image;
      this.initiallyRunning, this.stoppedStartedAt := initiallyRunning, stoppedStartedAt;
      mem, row, made, ran, undone := None, None, None, false, false;
    }

    ghost predicate Inv()
      reads this, host
    {
      && host.Valid() && config.name != config.temporary
      && Tracked(host.containers, mem, row, made, config, Lost())
      && (ran ==> Reached(mem, Starting))
      && (undone ==> Alone() && row == mem && OriginalKept(host.containers, config, host.meddled))
    }

    // No swap was saved and nothing was started.
    ghost predicate Begun()
      reads this
    {
      mem.None? && row.None? && !ran && !undone
    }

    // The replacement may be gone although no stage of the row removed it.
    ghost predicate Lost()
      reads this, host
    {
      host.meddled || undone
    }

    // Only the original can be left, and the swap cannot be finished.
    ghost predicate Alone()
      reads this, host
    {
      mem.Some? && mem.value.stage.Replacing? && !Exists(made, host.containers)
    }

    predicate Half()
      reads this, host
    {
      HalfUndone(host.containers, mem, row)
    }

    // Requests only count faults and interference up, and change no image.
    twostate predicate Monotone()
      reads this, host
    {
      && host.faults >= old(host.faults) && (old(host.meddled) ==> host.meddled)
      && (made == old(made) && Exists(made, host.containers) ==>
            Exists(made, old(host.containers)) &&
            host.containers[made.value].image == old(host.containers)[made.value].image)
    }

    // Only disturbances happened, and only interference made a container vanish.
    twostate predicate Calm()
      reads host
    {
      && Undisturbed(old(host.containers), host.containers)
      && (!host.meddled ==> host.containers.Keys == old(host.containers.Keys))
    }

    // The replacement is there to take over, unless another manager removed it.
    ghost predicate Ready(id: Id)
      reads this, host
    {
      made == Some(id) && ReplacementKept(host.containers, made, Lost())
    }

    // No container appeared and none changed its name or image.
    ghost predicate Shrunk(before: Containers)
      reads host
    {
      forall id :: id in host.containers ==>
        id in before && host.containers[id].name == before[id].name && host.containers[id].image == before[id].image
    }

    ghost predicate Trouble(faults: nat)
      reads this, host
    {
      host.faults > faults || Lost()
    }

    // Ludock ended, or every one of its attempts met a fault.
    twostate predicate Ended(polls: nat)
      reads this, host
    {
      host.crashes > old(host.crashes) || host.faults >= old(host.faults) + polls
    }

    predicate StillStopped(c: Container) {
      !c.running && c.startedAt == stoppedStartedAt
    }

    // Docker resolved another image for the replacement.
    ghost predicate WrongImage(cs: Containers)
      reads this
    {
      Exists(made, cs) && cs[made.value].image != image
    }

    /** What an update is refused for when nothing failed: Docker resolved another
      * image, the original was started, or the replacement stopped or is
      * unhealthy. */
    ghost predicate Objection(cs: Containers)
      reads this
    {
      || WrongImage(cs)
      || (config.original in cs && !StillStopped(cs[config.original]))
      || (ran && Exists(made, cs) && Failing(cs[made.value]))
    }

    /** saveSwap: one atomic write. One that is reported failed may have reached
      * the row; memory changes only once the write succeeds. */
    method Save(s: SwapState) returns (r: Reply)
      requires Inv() && !undone
      requires Sound(host.containers, Some(s), made, config, host.meddled)
      requires Behind(mem, Some(s)) && (ran ==> Reached(Some(s), Starting))
      modifies `mem, `row, host`faults, host`crashes
      ensures Inv()
      ensures r != NotFound
      ensures r == Okay ==> mem == row == Some(s)
      ensures r != Okay ==> mem == old(mem) && (row == old(row) || row == Some(s))
      ensures host.faults == old(host.faults) + if r == Okay then 0 else 1
      ensures host.crashes == old(host.crashes) + if r == Crashed then 1 else 0
    {
      var effective;
      r, effective := host.Fate();
      if effective {
        row := Some(s);
      }
      if r == Okay {
        mem := Some(s);
      }
    }

    /** Any other progress of the operation writes the swap in memory again. */
    method Refresh()
      requires Inv()
      modifies `row, host`faults, host`crashes
      ensures Inv() && (row == old(row) || row == mem)
      ensures host.faults >= old(host.faults)
    {
      var r, effective := host.Fate();
      if effective {
        row := mem;
      }
    }

    /** A restart reads the row. */
    method Restart()
      requires Inv() && !Half()
      modifies `mem, `undone
      ensures Inv() && mem == old(row)
      ensures undone <==> old(undone) || Torn(host.containers, old(mem), row, made, host.meddled)
    {
      HalfUndoneIsUnsound(host.containers, mem, row, made, config, Lost());
      RowIsSound(host.containers, mem, row, made, config, Lost());
      undone := undone || Torn(host.containers, mem, row, made, host.meddled);
      mem := row;
    }

    method Look(id: Id) returns (r: Reply, info: Option<Container>)
      requires Inv()
      modifies host
      ensures Inv()
      ensures r == Okay ==> id in host.containers && info == Some(host.containers[id])
      ensures r == NotFound ==> id !in host.containers
      ensures Monotone()
      ensures r == Unavailable || r == Crashed ==> host.faults > old(host.faults)
      ensures Calm()
      ensures r == Okay || r == NotFound ==> host.faults == old(host.faults)
      ensures host.crashes == old(host.crashes) + if r == Crashed then 1 else 0
    {
      ghost var before, m := host.containers, Lost();
      r, info := host.Inspect(id);
      DisturbanceIsSound(before, host.containers, mem, row, made, config, m, Lost());
    }

    /** ownedReplacement: without a saved ID, a container under the temporary
      * name counts only if this operation created it. */
    method OwnedReplacement() returns (v: Verdict, id: Option<Id>)
      requires Inv() && mem.Some?
      modifies host
      ensures Inv()
      ensures v == Settled ==> (if Exists(made, host.containers) then id == made else id.None?)
      ensures v in {Settled, Transient, Interrupted}
      ensures v == Settled ==> host.faults == old(host.faults)
      ensures v != Settled ==> host.faults > old(host.faults)
      ensures Monotone() && Calm()
      ensures host.crashes >= old(host.crashes) && (v == Interrupted <==> host.crashes > old(host.crashes))
    {
      id := mem.value.replacement;
      if id.None? {
        v, id := FindReplacement();
        if v != Settled || id.None? {
          return;
        }
      }
      if id.value == config.original {
        return InvalidState, None;
      }
      ghost var before := host.containers;
      var r, info := Look(id.value);
      UndisturbedTransitive(old(host.containers), before, host.containers);
      if r == NotFound {
        return Settled, None;
      }
      if r != Okay {
        return if r == Crashed then Interrupted else Transient, None;
      }
      v := Settled;
    }

    method FindReplacement() returns (v: Verdict, id: Option<Id>)
      requires Inv() && mem.Some? && mem.value.replacement.None?
      modifies host
      ensures Inv()
      ensures v == Settled ==> if Exists(made, host.containers) then id == made else id.None?
      ensures v in {Settled, Transient, Interrupted}
      ensures v == Settled ==> host.faults == old(host.faults)
      ensures v != Settled ==> host.faults > old(host.faults)
      ensures Monotone() && Calm()
      ensures host.crashes >= old(host.crashes) && (v == Interrupted <==> host.crashes > old(host.crashes))
    {
      ghost var before, m := host.containers, Lost();
      var r, found, info := host.Find(mem.value.temporary);
      DisturbanceIsSound(before, host.containers, mem, row, made, config, m, Lost());
      if r == NotFound {
        return Settled, None;
      }
      if r != Okay {
        return if r == Crashed then Interrupted else Transient, None;
      }
      v, id := Settled, if info.value.owner == config.operation then Some(found) else None;
    }

    method RemoveOnce(id: Id) returns (r: Reply)
      requires Inv() && !undone && MayRemove(id, mem, made, config)
      modifies host
      ensures Inv() && Shrunk(old(host.containers))
      ensures r == Okay || r == NotFound ==> id !in host.containers
      ensures r != Okay && r != NotFound ==> host.faults > old(host.faults)
      ensures Monotone()
      ensures host.crashes == old(host.crashes) + if r == Crashed then 1 else 0
    {
      hide Tracked;
      ghost var before, m := host.containers, Lost();
      ghost var mid;
      r, mid := host.Remove(id);
      DisturbanceIsSound(before, mid, mem, row, made, config, m, Lost());
      RemovalIsSound(mid, id, mem, row, made, config, Lost());
    }

    /** removeUntilGone, for a container the saved stage allows removing. It is
      * retried until Docker confirms that the container is gone, or shutdown. */
    method RemoveUntilGone(id: Id, polls: nat) returns (gone: bool)
      requires Inv() && !undone && MayRemove(id, mem, made, config)
      modifies host
      ensures Inv() && Shrunk(old(host.containers))
      ensures gone ==> id !in host.containers
      ensures !gone ==> host.faults > old(host.faults) || polls == 0
      ensures Monotone()
      ensures if gone then host.crashes == old(host.crashes) else Ended(polls)
    {
      hide Tracked, Sound;
      for i := 0 to polls
        invariant Inv() && Shrunk(old(host.containers))
        invariant host.faults >= old(host.faults) + i && host.crashes == old(host.crashes)
        invariant Monotone()
      {
        var r := RemoveOnce(id);
        if r == Crashed {
          return false;
        }
        if r == Okay || r == NotFound {
          var q, info := Look(id);
          if q == NotFound {
            return true;
          }
          if q == Crashed {
            return false;
          }
        }
      }
      return false;
    }

    method SetPolicy(id: Id, policy: string) returns (r: Reply)
      requires Inv() && !undone && mem.Some? && !mem.value.stage.Replaced?
      requires id == config.original || policy == Effective(config.policy)
      requires policy != NO_RESTART ==> !Exists(made, host.containers) || config.original !in host.containers
      modifies host
      ensures Inv() && Shrunk(old(host.containers))
      ensures r == Okay ==> id in host.containers && host.containers[id].policy == policy
      ensures r != Okay ==> Trouble(old(host.faults)) || id !in old(host.containers) || old(host.containers[id].dead)
      ensures r == Crashed ==> host.faults > old(host.faults)
      ensures Monotone()
      ensures host.crashes == old(host.crashes) + if r == Crashed then 1 else 0
    {
      hide Tracked;
      ghost var before, m := host.containers, Lost();
      ghost var mid;
      r, mid := host.SetRestartPolicy(id, policy);
      DisturbanceIsSound(before, mid, mem, row, made, config, m, Lost());
      if id in mid {
        PolicyIsSound(mid, id, policy, mem, row, made, config, Lost());
      }
    }

    /** settleSwap. */
    method SettleSwap(polls: nat) returns (v: Verdict)
      requires Inv()
      modifies `mem, `row, host
      ensures Inv()
      ensures Reached(mem, Replacing) <==> Reached(old(mem), Replacing)
      ensures Reached(mem, Starting) <==> Reached(old(mem), Starting)
      ensures v == Settled ==> Converged(host.containers, mem, made, config)
      ensures v == OriginalMissing ==> !Exists(made, host.containers) && config.original !in host.containers
      ensures v != Settled ==> Trouble(old(host.faults)) || polls == 0
      ensures old(Alone()) ==> Alone() && Calm() && v in {ReplacementMissing, ServerMissing, Transient, Interrupted}
      ensures v == Transient ==> host.faults > old(host.faults)
      ensures Monotone()
      ensures v == Interrupted ==> Ended(polls)
      ensures v != Interrupted ==> host.crashes == old(host.crashes)
    {
      hide RowFits, Behind, NeitherRestarts;
      UndisturbedSelf(host.containers);
      if mem.None? || mem.value.stage.Replaced? {
        return Settled;
      }
      var owned, replacement := OwnedReplacement();
      if owned != Settled {
        return owned;
      }
      ghost var before := host.containers;
      if Reached(mem, Replacing) {
        v := Finish(replacement, polls);
        if replacement.None? {
          UndisturbedTransitive(old(host.containers), before, host.containers);
        }
      } else {
        v := Undo(replacement, polls);
      }
    }

    /** Undoing removes the replacement and gives the original its policy back. */
    method Undo(replacement: Option<Id>, polls: nat) returns (v: Verdict)
      requires Inv() && mem.Some? && !Reached(mem, Replacing)
      requires if Exists(made, host.containers) then replacement == made else replacement.None?
      modifies host
      ensures Inv()
      ensures v == Settled ==> Converged(host.containers, mem, made, config)
      ensures v == OriginalMissing ==> !Exists(made, host.containers) && config.original !in host.containers
      ensures v != Settled ==> Trouble(old(host.faults)) || polls == 0
      ensures v == Transient ==> host.faults > old(host.faults)
      ensures Monotone()
      ensures v == Interrupted ==> Ended(polls)
      ensures v != Interrupted ==> host.crashes == old(host.crashes)
    {
      if replacement.Some? {
        var gone := RemoveUntilGone(replacement.value, polls);
        if !gone {
          return Interrupted;
        }
      }
      var r, info := Look(config.original);
      if r == NotFound {
        return OriginalMissing;
      }
      if r != Okay {
        return if r == Crashed then Interrupted else Transient;
      }
      r := SetPolicy(config.original, Effective(mem.value.policy));
      if r != Okay {
        return if r == Crashed then Interrupted else PolicyNotRestored;
      }
      v := Settled;
    }

    /** Finishing removes the original, then gives the replacement its policy
      * and its name. */
    method Finish(replacement: Option<Id>, polls: nat) returns (v: Verdict)
      requires Inv() && mem.Some? && mem.value.stage.Replacing?
      requires if Exists(made, host.containers) then replacement == made else replacement.None?
      modifies `mem, `row, host
      ensures Inv() && Reached(mem, Replacing)
      ensures v == Settled ==> Converged(host.containers, mem, made, config)
      ensures v != Settled ==> Trouble(old(host.faults)) || polls == 0
      ensures v in {Settled, ReplacementMissing, ServerMissing, Transient, Interrupted, Unnamed}
      ensures replacement.None? ==> Alone() && Calm() && v in {ReplacementMissing, ServerMissing, Interrupted}
      ensures v == ServerMissing ==> config.original !in host.containers
      ensures v == Transient ==> host.faults > old(host.faults)
      ensures Monotone()
      ensures v == Interrupted ==> Ended(polls)
      ensures v != Interrupted ==> host.crashes == old(host.crashes)
    {
      if replacement.None? {
        var r, info := Look(config.original);
        return if r == Crashed then Interrupted else if r == NotFound then ServerMissing else ReplacementMissing;
      }
      var gone := RemoveUntilGone(config.original, polls);
      if !gone {
        return Interrupted;
      }
      v := TakeOver(replacement.value);
    }

    method TakeOver(id: Id) returns (v: Verdict)
      requires Inv() && !undone && mem.Some? && mem.value.stage.Replacing? && made == Some(id)
      requires config.original !in host.containers
      modifies `mem, `row, host
      ensures Inv() && Reached(mem, Replacing)
      ensures v == Settled ==> Converged(host.containers, mem, made, config)
      ensures v in {Settled, Transient, Interrupted, Unnamed}
      ensures v != Settled ==> Trouble(old(host.faults))
      ensures v == Transient ==> host.faults > old(host.faults)
      ensures Monotone()
      ensures host.crashes >= old(host.crashes) && (v == Interrupted <==> host.crashes > old(host.crashes))
    {
      hide Tracked, Sound;
      PolicyKept(host.containers, mem, row, made, config, Lost());
      var r := SetPolicy(id, Effective(mem.value.policy));
      if r != Okay {
        return if r == Crashed then Interrupted else Unnamed;
      }
      v := TakeName(id);
      if v != Settled {
        return;
      }
      ReplacedIsSound(host.containers, mem, row, made, config, Lost());
      r := Save(mem.value.(stage := Replaced));
      v := if r == Okay then Settled else if r == Crashed then Interrupted else Transient;
    }

    method Rename(id: Id) returns (r: Reply)
      requires Inv() && !undone && mem.Some? && mem.value.stage.Replacing? && made == Some(id)
      requires config.original !in host.containers
      requires id in host.containers && host.containers[id].policy == Effective(config.policy)
      requires host.containers[id].name != config.name
      modifies host
      ensures Inv() && config.original !in host.containers
      ensures r == Okay ==> id in host.containers && TookOver(host.containers[id], config)
      ensures r != Okay ==> Trouble(old(host.faults))
      ensures host.crashes == old(host.crashes) + if r == Crashed then 1 else 0
      ensures Monotone()
    {
      hide RowFits, Behind;
      ghost var before, m := host.containers, Lost();
      ghost var mid;
      r, mid := host.Rename(id, mem.value.name);
      DisturbanceIsSound(before, mid, mem, row, made, config, m, Lost());
      if host.containers != mid {
        RenameIsSound(mid, id, mem, row, made, config, Lost());
      }
    }

    method TakeName(id: Id) returns (v: Verdict)
      requires Inv() && !undone && mem.Some? && mem.value.stage.Replacing? && made == Some(id)
      requires config.original !in host.containers
      requires id in host.containers && host.containers[id].policy == Effective(config.policy)
      modifies host
      ensures Inv() && config.original !in host.containers
      ensures v == Settled ==> id in host.containers && TookOver(host.containers[id], config)
      ensures v in {Settled, Interrupted, Unnamed}
      ensures v != Settled ==> Trouble(old(host.faults))
      ensures Monotone()
      ensures host.crashes >= old(host.crashes) && (v == Interrupted <==> host.crashes > old(host.crashes))
    {
      hide RowFits, Behind;
      var r, info := Look(id);
      if r != Okay {
        return if r == Crashed then Interrupted else Unnamed;
      }
      if info.value.name != mem.value.name {
        r := Rename(id);
        if r != Okay {
          return if r == Crashed then Interrupted else Unnamed;
        }
      }
      v := Settled;
    }

    // Any other check of the operation, such as the owner's capability.
    method Check() returns (v: Verdict)
      modifies host`faults, host`crashes
      ensures v in {Settled, Refused, Interrupted}
      ensures host.faults == old(host.faults) + if v == Settled then 0 else 1
      ensures host.crashes >= old(host.crashes) && (v == Interrupted <==> host.crashes > old(host.crashes))
    {
      var r, effective := host.Fate();
      v := if r == Okay then Settled else if r == Crashed then Interrupted else Refused;
    }

    function Failure(r: Reply): Verdict {
      if r == Crashed then Interrupted else Refused
    }

    /** settle: retry settleSwap through transient failures until shutdown. */
    method Settle(polls: nat) returns (v: Verdict)
      requires Inv()
      modifies `mem, `row, host
      ensures Inv()
      ensures Reached(mem, Replacing) <==> Reached(old(mem), Replacing)
      ensures Reached(mem, Starting) <==> Reached(old(mem), Starting)
      ensures v == Settled ==> Converged(host.containers, mem, made, config)
      ensures v != Settled ==> Trouble(old(host.faults)) || polls == 0
      ensures old(Alone()) ==> Alone() && Calm() && v in {ReplacementMissing, ServerMissing, Interrupted}
      ensures v != Transient
      ensures Monotone()
      ensures v == Interrupted ==> Ended(polls)
      ensures v != Interrupted ==> host.crashes == old(host.crashes)
    {
      hide Tracked, Undisturbed, Converged;
      UndisturbedSelf(host.containers);
      for i := 0 to polls
        invariant Inv()
        invariant old(Alone()) ==> Alone() && Calm()
        invariant Reached(mem, Replacing) <==> Reached(old(mem), Replacing)
        invariant Reached(mem, Starting) <==> Reached(old(mem), Starting)
        invariant i == 0 || Trouble(old(host.faults))
        invariant host.faults >= old(host.faults) + i && host.crashes == old(host.crashes)
        invariant Monotone()
      {
        ghost var before := host.containers;
        v := SettleSwap(polls);
        if old(Alone()) {
          UndisturbedTransitive(old(host.containers), before, host.containers);
        }
        if v != Transient {
          return;
        }
      }
      v := Interrupted;
    }

    /** assertStopped: the original is still the instance this operation stopped. */
    method AssertStopped() returns (v: Verdict)
      requires Inv()
      modifies host
      ensures Inv() && Calm()
      ensures v in {Settled, Refused, Interrupted}
      ensures v == Settled ==>
                config.original in host.containers && !host.containers[config.original].running &&
                  host.containers[config.original].startedAt == stoppedStartedAt
      ensures v != Settled && host.faults == old(host.faults) && config.original in host.containers ==>
                var c := host.containers[config.original];
                c.running || c.startedAt != stoppedStartedAt
      ensures v != Settled && !Reached(mem, Replacing) ==> Trouble(old(host.faults)) || Objection(host.containers)
      ensures v == Interrupted ==> host.faults > old(host.faults)
      ensures Monotone()
      ensures host.crashes >= old(host.crashes) && (v == Interrupted <==> host.crashes > old(host.crashes))
    {
      var r, info := Look(config.original);
      if r != Okay {
        return Failure(r);
      }
      if !StillStopped(info.value) {
        return Refused;
      }
      v := Settled;
    }

    /** Create the stopped replacement and save its ID. */
    method CreateReplacement() returns (v: Verdict, id: Id)
      requires Inv() && mem.None? && row.None?
      modifies `mem, `row, `made, host
      ensures Inv()
      ensures v in {Settled, Refused, Interrupted}
      ensures !Reached(mem, Starting) && !Reached(row, Starting)
      ensures v == Settled ==> mem == row && mem.Some? && mem.value.replacement == Some(id) && Ready(id)
      ensures v == Settled ==> id in host.containers && host.containers[id].image == image
      ensures v != Settled ==>
              Trouble(old(host.faults)) || NameTaken(old(host.containers), config.temporary) ||
              WrongImage(host.containers)
      ensures v == Interrupted ==> host.faults > old(host.faults)
      ensures Monotone()
      ensures host.crashes >= old(host.crashes) && (v == Interrupted <==> host.crashes > old(host.crashes))
    {
      v, id := Create();
      if v != Settled {
        return;
      }
      var r := Save(mem.value.(replacement := Some(id)));
      if r != Okay {
        return Failure(r), id;
      }
      v := CheckImage(id);
    }

    // Create resolves the image tag again.
    method CheckImage(id: Id) returns (v: Verdict)
      requires Inv() && made == Some(id)
      modifies host
      ensures Inv() && v in {Settled, Refused, Interrupted} && (old(Ready(id)) ==> Ready(id))
      ensures v == Settled ==> id in host.containers && host.containers[id].image == image
      ensures v != Settled ==> host.faults > old(host.faults) || id !in host.containers || WrongImage(host.containers)
      ensures host.crashes >= old(host.crashes) && (v == Interrupted <==> host.crashes > old(host.crashes))
      ensures v == Interrupted ==> host.faults > old(host.faults)
      ensures Monotone()
    {
      hide Sound, Behind;
      var r, info := Look(id);
      if r != Okay {
        return Failure(r);
      }
      v := if info.value.image != image then Refused else Settled;
    }

    /** Once the stage is saved and the original may not restart, create the
      * replacement, which may not either. */
    method Create() returns (v: Verdict, id: Id)
      requires Inv() && mem.None? && row.None?
      modifies `mem, `row, `made, host
      ensures Inv()
      ensures v in {Settled, Refused, Interrupted}
      ensures !Reached(mem, Starting) && !Reached(row, Starting)
      ensures v == Settled ==> mem == row && mem.Some? && mem.value.replacement.None? && Ready(id)
      ensures v != Settled ==> Trouble(old(host.faults)) || NameTaken(old(host.containers), config.temporary)
      ensures v == Interrupted ==> host.faults > old(host.faults)
      ensures Monotone()
      ensures host.crashes >= old(host.crashes) && (v == Interrupted <==> host.crashes > old(host.crashes))
    {
      hide Tracked;
      id := 0;
      v := BeginSwap();
      if v != Settled {
        return;
      }
      var r;
      r, id := MakeReplacement();
      v := if r == Okay then Settled else Failure(r);
    }

    method MakeReplacement() returns (r: Reply, id: Id)
      requires Inv() && mem.Some? && mem.value.stage.Creating? && mem.value.replacement.None? && made.None? && !undone
      requires config.original in host.containers && host.containers[config.original].policy == NO_RESTART
      requires row.Some? && row.value.replacement.None?
      modifies `made, host
      ensures Inv()
      ensures r == Okay ==> Ready(id)
      ensures r != Okay ==> host.faults > old(host.faults) || NameTaken(old(host.containers), config.temporary)
      ensures r == Crashed ==> host.faults > old(host.faults)
      ensures Monotone()
      ensures host.crashes == old(host.crashes) + if r == Crashed then 1 else 0
    {
      ghost var before, m := host.containers, Lost();
      ghost var created, mid;
      r, id, created, mid := host.Create(mem.value.temporary, NO_RESTART, config.operation);
      DisturbanceIsSound(before, mid, mem, row, made, config, m, Lost());
      if created {
        CreationIsSound(mid, id, host.containers[id].image, mem, row, config, Lost());
        made := Some(id);
      }
    }

    method BeginSwap() returns (v: Verdict)
      requires Inv() && mem.None? && row.None?
      modifies `mem, `row, host
      ensures Inv() && made.None?
      ensures v in {Settled, Refused, Interrupted}
      ensures !Reached(mem, Starting) && !Reached(row, Starting)
      ensures v == Settled ==> mem == row && mem.Some? && mem.value.replacement.None?
      ensures v == Settled ==>
              config.original in host.containers && host.containers[config.original].policy == NO_RESTART
      ensures Shrunk(old(host.containers)) && (v != Settled ==> Trouble(old(host.faults)))
      ensures v == Interrupted ==> host.faults > old(host.faults)
      ensures Monotone()
      ensures host.crashes >= old(host.crashes) && (v == Interrupted <==> host.crashes > old(host.crashes))
    {
      v := Check();
      if v != Settled {
        return;
      }
      var r := Save(SwapState(Creating, config.name, config.temporary, None, config.policy));
      if r != Okay {
        return Failure(r);
      }
      r := SetPolicy(config.original, NO_RESTART);
      v := if r == Okay then Settled else Failure(r);
    }

    /** awaitReplacement: accept a replacement that is healthy, has run for the
      * settle time without a healthcheck, or is still starting after the pending
      * time; fail once it stops, restarts or turns unhealthy. `since` is the start
      * time at the first look and `looks` counts the looks after it. */
    method AwaitReplacement(id: Id, settlePolls: nat, pendingPolls: nat)
      returns (v: Verdict, since: nat, looks: nat)
      requires Inv()
      modifies host
      ensures Inv() && Calm()
      ensures v in {Settled, Refused, Interrupted}
      ensures v == Settled ==>
                id in host.containers && host.containers[id].running && host.containers[id].startedAt == since
      ensures v == Settled ==>
                var health := host.containers[id].health;
                health.Healthy? || (health.Unchecked? && looks >= settlePolls) ||
                  (health.Pending? && looks >= pendingPolls)
      ensures v == Refused && host.faults == old(host.faults) && id in host.containers ==>
                var c := host.containers[id];
                !c.running || c.startedAt != since || c.health.Unhealthy?
      ensures v == Refused && host.faults == old(host.faults) && id in host.containers ==>
              old(host.containers)[id].policy == NO_RESTART ==> Failing(host.containers[id])
      ensures v == Interrupted ==> host.faults > old(host.faults)
      ensures Monotone()
      ensures host.crashes >= old(host.crashes) && (v == Interrupted <==> host.crashes > old(host.crashes))
    {
      hide Sound, Undisturbed, Accepts;
      var startedAt: Option<nat> := None;
      since, looks := 0, 0;
      assert Undisturbed(host.containers, host.containers) by { UndisturbedSelf(host.containers); }
      for i := 0 to settlePolls + pendingPolls + 1
        invariant Inv() && Calm() && Monotone()
        invariant startedAt == if i == 0 then None else Some(since)
        invariant i <= settlePolls + pendingPolls && host.faults == old(host.faults)
        invariant host.crashes == old(host.crashes)
        invariant i > 0 ==> id in host.containers && Same(host.containers[id], since)
      {
        var r, info := LookOn(id, old(host.containers));
        looks := i;
        if r != Okay {
          return Failure(r), since, looks;
        }
        if startedAt.None? {
          since := info.value.startedAt;
          startedAt := Some(since);
        }
        if !Same(info.value, since) {
          return Refused, since, looks;
        }
        var health := info.value.health;
        AcceptsIs(health, i, settlePolls, pendingPolls);
        if Accepts(health, i, settlePolls, pendingPolls) {
          return Settled, since, looks;
        }
        if health == Unhealthy {
          return Refused, since, looks;
        }
        v := Check();
        if v != Settled {
          return;
        }
      }
      v := Interrupted;
    }

    lemma AcceptsIs(health: Health, looks: nat, settlePolls: nat, pendingPolls: nat)
      ensures Accepts(health, looks, settlePolls, pendingPolls) <==>
              health.Healthy? || (health.Unchecked? && looks >= settlePolls) ||
                (health.Pending? && looks >= pendingPolls)
    {
    }

    lemma UndisturbedSelf(a: Containers)
      ensures Undisturbed(a, a)
    {
    }

    // One more look since the containers were as at first.
    method LookOn(id: Id, ghost first: Containers) returns (r: Reply, info: Option<Container>)
      requires Inv() && Undisturbed(first, host.containers)
      modifies host
      ensures Inv() && Undisturbed(first, host.containers) && Calm()
      ensures r == Okay ==> id in host.containers && info == Some(host.containers[id])
      ensures id in host.containers ==>
                && id in old(host.containers) && id in first
                && (host.containers[id].running && first[id].policy == NO_RESTART ==>
                      old(host.containers)[id].running &&
                      host.containers[id].startedAt == old(host.containers)[id].startedAt)
      ensures r == NotFound ==> id !in host.containers
      ensures if r == Okay || r == NotFound then host.faults == old(host.faults) else host.faults > old(host.faults)
      ensures host.crashes == old(host.crashes) + if r == Crashed then 1 else 0
      ensures Monotone()
    {
      hide Sound;
      ghost var before := host.containers;
      r, info := Look(id);
      UndisturbedTransitive(first, before, host.containers);
      StaysStarted(first, before, host.containers, id);
    }

    // Without a restart policy a container that runs was never restarted.
    lemma StaysStarted(first: Containers, before: Containers, after: Containers, id: Id)
      requires Undisturbed(first, before) && Undisturbed(before, after)
      ensures id in after ==> id in before && id in first && after[id].policy == before[id].policy == first[id].policy
      ensures id in after && after[id].running && first[id].policy == NO_RESTART ==>
              before[id].running && after[id].startedAt == before[id].startedAt
    {
    }

    lemma UndisturbedTransitive(a: Containers, b: Containers, c: Containers)
      requires Undisturbed(a, b) && Undisturbed(b, c)
      ensures Undisturbed(a, c)
    {
    }

    /** Start the replacement beside the stopped original. */
    method StartReplacement(id: Id, settlePolls: nat, pendingPolls: nat) returns (v: Verdict)
      requires Inv() && mem.Some? && mem.value.stage.Creating? && mem.value.replacement == Some(id) && !ran
      requires mem == row && Ready(id)
      modifies `mem, `row, `ran, host
      ensures Inv() && mem.Some? && mem.value.replacement == made && !undone
      ensures v in {Settled, Refused, Interrupted}
      ensures v == Settled ==> mem == row && mem.value.stage.Starting? && Ready(id) && ran
      ensures v == Settled ==> id in host.containers && host.containers[id].running
      ensures v != Settled ==> Trouble(old(host.faults)) || Objection(host.containers)
      ensures v == Interrupted ==> host.faults > old(host.faults)
      ensures !Reached(mem, Replacing) && !Reached(row, Replacing)
      ensures Monotone()
      ensures host.crashes >= old(host.crashes) && (v == Interrupted <==> host.crashes > old(host.crashes))
    {
      hide Tracked, NameTaken;
      v := Check();
      if v != Settled {
        return;
      }
      v := AssertStopped();
      if v != Settled {
        return;
      }
      var r := StartSaved(id);
      if r != Okay {
        return Failure(r);
      }
      BothThere(host.containers, mem, row, made, config, Lost());
      var since, looks;
      v, since, looks := AwaitReplacement(id, settlePolls, pendingPolls);
    }

    method StartSaved(id: Id) returns (r: Reply)
      requires Inv() && mem.Some? && mem.value.stage.Creating? && mem.value.replacement == Some(id) && !ran
      requires mem == row && Ready(id)
      requires config.original in host.containers ==> !host.containers[config.original].running
      modifies `mem, `row, `ran, host
      ensures Inv() && mem.Some? && mem.value.replacement == made == Some(id) && !undone
      ensures r == Okay ==> mem == row && mem.value.stage.Starting? && Ready(id) && ran
      ensures r == Okay ==> id in host.containers && host.containers[id].running
      ensures r != Okay ==> Trouble(old(host.faults))
      ensures r == Crashed ==> host.faults > old(host.faults)
      ensures !Reached(mem, Replacing) && !Reached(row, Replacing)
      ensures Monotone()
      ensures host.crashes == old(host.crashes) + if r == Crashed then 1 else 0
    {
      r := Save(mem.value.(stage := Starting));
      if r == Okay {
        r := Start(id);
      }
    }

    method Start(id: Id) returns (r: Reply)
      requires Inv() && mem.Some? && mem.value.stage.Starting? && Ready(id)
      modifies host, `ran
      ensures Inv() && Ready(id) && ran
      ensures r == Okay ==> id in host.containers && host.containers[id].running
      ensures r != Okay ==> Trouble(old(host.faults))
      ensures r == Crashed ==> host.faults > old(host.faults)
      ensures Monotone()
      ensures host.crashes == old(host.crashes) + if r == Crashed then 1 else 0
    {
      ran := true;
      ghost var before, m := host.containers, Lost();
      ghost var mid;
      r, mid := host.Start(id);
      DisturbanceIsSound(before, mid, mem, row, made, config, m, Lost());
      if id in mid && id in host.containers {
        StartIsSound(mid, id, host.containers[id].startedAt, mem, row, made, config, Lost());
      }
    }

    /** swap: replace the stopped original. Without a fault it is refused only if
      * the temporary name is in use or for an objection. */
    method Swap(polls: nat, settlePolls: nat, pendingPolls: nat) returns (v: Verdict)
      requires Inv() && Begun()
      modifies `mem, `row, `made, `ran, host
      ensures Inv()
      ensures v == Settled ==> Reached(mem, Replacing) && Converged(host.containers, mem, made, config)
      ensures v == Settled ==> !WrongImage(host.containers)
      ensures (ran ==> initiallyRunning) && (v == Settled && initiallyRunning ==> ran)
      ensures v != Settled ==>
              Trouble(old(host.faults)) || polls == 0 ||
              NameTaken(old(host.containers), config.temporary) || Objection(host.containers)
      ensures v == Interrupted ==> Trouble(old(host.faults)) || polls == 0
      ensures v != Transient
      ensures Monotone()
      ensures v == Interrupted ==> Ended(polls)
      ensures v != Interrupted ==> host.crashes == old(host.crashes)
    {
      hide Tracked, NameTaken, Converged;
      var id;
      v, id := CreateReplacement();
      if v != Settled {
        return;
      }
      if initiallyRunning {
        v := StartReplacement(id, settlePolls, pendingPolls);
        if v != Settled {
          return;
        }
      }
      v := Replace(id, polls);
    }

    /** From here only forward: save the stage, then finish. */
    method Replace(id: Id, polls: nat) returns (v: Verdict)
      requires Inv() && mem.Some? && !Reached(mem, Replacing) && mem.value.replacement == Some(id) && Ready(id)
      requires mem == row
      modifies `mem, `row, host
      ensures Inv()
      ensures v == Settled ==> Reached(mem, Replacing) && Converged(host.containers, mem, made, config)
      ensures v != Settled ==> Trouble(old(host.faults)) || polls == 0 || Objection(host.containers)
      ensures v == Interrupted ==> Trouble(old(host.faults)) || polls == 0
      ensures v != Transient
      ensures Monotone()
      ensures v == Interrupted ==> Ended(polls)
      ensures v != Interrupted ==> host.crashes == old(host.crashes)
    {
      hide Tracked;
      v := Check();
      if v != Settled {
        return;
      }
      v := BeginReplacing(id);
      if v == Settled {
        v := Settle(polls);
      }
    }

    method BeginReplacing(id: Id) returns (v: Verdict)
      requires Inv() && mem.Some? && !Reached(mem, Replacing) && mem.value.replacement == Some(id) && Ready(id)
      requires mem == row
      modifies `mem, `row, host
      ensures Inv()
      ensures v in {Settled, Refused, Interrupted}
      ensures v == Settled ==> Reached(mem, Replacing)
      ensures v != Settled ==> Trouble(old(host.faults)) || Objection(host.containers)
      ensures v == Interrupted ==> host.faults > old(host.faults)
      ensures Monotone()
      ensures host.crashes >= old(host.crashes) && (v == Interrupted <==> host.crashes > old(host.crashes))
    {
      hide Tracked, Sound, Behind;
      v := AssertStopped();
      if v != Settled {
        return;
      }
      assert !undone && Lost() == host.meddled;
      ReplacingIsSound(host.containers, mem.value, made, config, Lost());
      var r := Save(mem.value.(stage := Replacing));
      v := if r == Okay then Settled else Failure(r);
    }

    /** runUpdate from the swap on: a failure settles the swap at once, as
      * undoUpdate does, and that fails only for a fault of its own. `restart` says
      * that the original may be started again, which is so exactly if the swap was
      * undone before the replacement was to be started. `at` are the containers
      * when the swap ended. */
    method Run(polls: nat, settlePolls: nat, pendingPolls: nat)
      returns (v: Verdict, settled: bool, restart: bool, ghost at: Containers)
      requires Inv() && Begun()
      modifies `mem, `row, `made, `ran, host
      ensures Inv()
      ensures settled ==> Converged(host.containers, mem, made, config)
      ensures v == Settled ==> settled && Reached(mem, Replacing) && !WrongImage(host.containers)
      ensures (ran ==> initiallyRunning) && (v == Settled && initiallyRunning ==> ran)
      ensures v != Settled ==>
              Trouble(old(host.faults)) || polls == 0 ||
              NameTaken(old(host.containers), config.temporary) || Objection(at)
      ensures !settled && v != Interrupted ==>
              Lost() || polls == 0 || host.faults >= old(host.faults) + 2 ||
              (host.faults > old(host.faults) &&
               (NameTaken(old(host.containers), config.temporary) || Objection(at)))
      ensures !settled ==> Trouble(old(host.faults)) || polls == 0
      ensures restart <==> v != Settled && settled && !Reached(mem, Starting)
      ensures restart ==> !ran
      ensures v == Interrupted ==> Ended(polls) && !settled
      ensures v != Interrupted ==> host.crashes == old(host.crashes)
      ensures Monotone()
    {
      hide Tracked, NameTaken, Converged;
      v := Swap(polls, settlePolls, pendingPolls);
      settled, restart, at := v == Settled, false, host.containers;
      if v != Settled && v != Interrupted {
        var undo := Settle(polls);
        settled := undo == Settled;
        restart := settled && !Reached(mem, Starting);
        if undo == Interrupted {
          v := Interrupted;
        }
      }
    }

    /** recoverUpdate, from the row a restart read. */
    method Recover(polls: nat) returns (v: Verdict, restart: bool)
      requires Inv()
      modifies `mem, `row, host
      ensures Inv()
      ensures Reached(mem, Replacing) <==> Reached(old(mem), Replacing)
      ensures v == Settled ==> Converged(host.containers, mem, made, config)
      ensures v != Settled ==> Trouble(old(host.faults)) || polls == 0
      ensures old(Alone()) ==> Alone() && Calm() && v in {ReplacementMissing, ServerMissing, Interrupted}
      ensures restart <==> v == Settled && !Reached(mem, Starting)
      ensures restart ==> !ran
      ensures v == Interrupted ==> Ended(polls)
      ensures v != Interrupted ==> host.crashes == old(host.crashes)
      ensures Monotone()
    {
      v := Settle(polls);
      restart := v == Settled && !Reached(mem, Starting);
    }
  }

  /** An update run into any number of restarts, at any step of the swap or of a
    * recovery, with requests and journal writes that fail after taking effect and
    * with daemon restarts in between: once a run settles it, exactly the original
    * is left if `replacing` was not reached and exactly the replacement if it was.
    * Without a fault or another manager a run settles it.
    *
    * The one state that no run may restart from is `half`: a saved `replacing`
    * that was reported failed, and an undo whose removal left the replacement
    * dead. Where the undo had removed it (`undone`), no recovery settles the
    * swap, and none touches the original. */
  method UpdateThroughCrashes(u: Update, restarts: nat, polls: nat, settlePolls: nat, pendingPolls: nat)
    returns (settled: bool, restart: bool, half: bool)
    requires u.Inv() && u.Begun()
    modifies u, u.host
    ensures u.Inv() && (half <==> u.Half())
    ensures settled ==> Converged(u.host.containers, u.mem, u.made, u.config)
    ensures restart ==> settled && !u.ran && !Reached(u.mem, Replacing)
    ensures !settled ==> u.Trouble(old(u.host.faults)) || polls == 0
    ensures u.undone ==> !settled && u.Alone() && OriginalKept(u.host.containers, u.config, u.host.meddled)
  {
    hide Tracked, Undisturbed, Converged;
    var v;
    ghost var at;
    v, settled, restart, at := u.Run(polls, settlePolls, pendingPolls);
    u.Refresh();
    var left := restarts;
    while left > 0 && !u.Half()
      invariant u.Inv()
      invariant settled ==> Converged(u.host.containers, u.mem, u.made, u.config)
      invariant restart ==> settled && !u.ran && !Reached(u.mem, Replacing)
      invariant u.undone ==> !settled
      invariant !settled ==> u.Trouble(old(u.host.faults)) || polls == 0
      invariant u.host.faults >= old(u.host.faults)
    {
      u.Restart();
      v, restart := u.Recover(polls);
      settled := v == Settled;
      u.Refresh();
      left := left - 1;
    }
    half := u.Half();
  }
}
