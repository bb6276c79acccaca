/** Stopping a server for a data operation and starting it again. */
module Starts {

  import opened Wrappers
  import RestoreHelper
  import RestoreJob

  type Outcome = RestoreHelper.Outcome

  /** The recovery fields of an operation that concern its stop and its start.
    * Start times are all different; a never recorded one is None. */
  datatype Recovery = Recovery(
    initialRunning: Option<bool>,
    stopStarted: bool,
    stopSettled: bool,
    stopInitial: Option<nat>,
    stoppedAt: Option<nat>,
    startRequested: bool,
    stateRestored: bool)

  const NEW := Recovery(None, false, false, None, None, false, false)

  /** What a restart of Ludock knows of the data: its journal, if any. */
  datatype DataState = DataState(restore: bool, journal: Option<RestoreJob.Journal>, unsafe: bool)

  function Safe(d: DataState): bool {
    if d.restore then RestoreJob.DataSafe(d.journal, d.unsafe) else !d.unsafe
  }

  /** Starting is safe exactly with data that nothing was half done to: for a
    * restore its journal, which must be one that runs save, says so. */
  lemma SafeIs(d: DataState)
    ensures d.restore && d.journal.Some? ==>
      (Safe(d) <==> RestoreJob.ReadJournal(d.journal, d.unsafe).Ok? &&
                    d.journal.value.status in {RestoreJob.Preparing, RestoreJob.Committed, RestoreJob.Cleaned,
                                               RestoreJob.Undone})
    ensures !(d.restore && d.journal.Some?) ==> (Safe(d) <==> !d.unsafe)
  {
  }

  datatype Seen = Seen(running: bool, startedAt: nat)

  predicate StopPending(r: Recovery) {
    r.stopStarted && !r.stopSettled
  }

  /** The operation should start the server again. */
  predicate Wanted(r: Recovery, d: DataState) {
    r.initialRunning == Some(true) && Safe(d) && !r.stateRestored
  }

  /** A start was saved as requested, but never which stop it follows. */
  predicate Forgotten(r: Recovery) {
    r.startRequested && r.stoppedAt.None?
  }

  /** What becomes of one write or one request: whether it fails, whether it takes
    * effect although it fails, whether a stop that did executes at once, and
    * whether Ludock ends with it. */
  datatype Fate = Fate(fails: bool, effect: bool, executes: bool, crash: bool)

  const FINE := Fate(false, true, true, false)
  const DONE_UNHEARD := Fate(true, true, true, true)

  predicate Fine(plan: seq<Fate>, n: nat) {
    n <= |plan| && forall k :: 0 <= k < n ==> plan[k] == FINE
  }

  // Some steps go well, and the next takes effect although nobody hears of it.
  predicate FineThenUnheard(plan: seq<Fate>, n: nat) {
    n < |plan| && Fine(plan, n) && plan[n] == DONE_UNHEARD
  }

  function ResultOf(f: Fate): Outcome {
    if !f.fails then RestoreHelper.Done else if f.crash then RestoreHelper.Crashed else RestoreHelper.Failed
  }

  class DataJob {
    // The container in Docker, and a dispatched stop that may still execute.
    var running: bool
    var startedAt: nat
    var stopping: bool
    var clock: nat
    // The operation as saved and in memory.
    var saved: Recovery
    var mem: Recovery
    // Starts of this operation that took effect; whether another manager
    // started or stopped the container; how often anything failed, or the
    // container was found to be another one.
    ghost var ours: nat
    ghost var meddled: bool
    ghost var faults: nat
    // The fates of the next steps, among which nobody else acts; after them,
    // anything can happen.
    var plan: seq<Fate>

    constructor (running: bool, plan: seq<Fate>)
      ensures Inv() && ours == 0 && !meddled && mem == saved == NEW && this.running == running && !stopping
      ensures this.plan == plan
    {
      this.running, startedAt, stopping, clock, this.plan := running, 1, false, 1, plan;
      saved, mem, ours, meddled, faults := NEW, NEW, 0, false, 0;
    }

    predicate Known(r: Recovery)
      reads this
    {
      r.stoppedAt.Some? ==> r.stoppedAt.value <= clock
    }

    // What the fields say once a start took effect.
    predicate Marked(r: Recovery)
      reads this
    {
      r.startRequested && !StopPending(r) && (r.stoppedAt.Some? ==> r.stoppedAt.value < startedAt)
    }

    // Undisturbed, the container is still the one that was stopped.
    ghost predicate Undisturbed(r: Recovery)
      reads this
    {
      && (stopping ==> StopPending(r))
      && (StopPending(r) && r.stopInitial.Some? ==> r.stopInitial.value == startedAt)
      && (ours == 0 && r.stoppedAt.Some? ==> r.stoppedAt.value == startedAt)
      && (r.stateRestored ==> running && !stopping)
    }

    /** At most one start took effect, and if one did, the saved fields keep any
      * later run from another. */
    ghost predicate Inv()
      reads this
    {
      && startedAt <= clock && ours <= 1 && Known(saved) && Known(mem)
      && (ours == 1 ==> Marked(saved) && Marked(mem))
      && (!meddled ==> (stopping || ours == 1 ==> running) && Undisturbed(saved) && Undisturbed(mem))
    }

    method Next() returns (f: Fate)
      modifies this`plan
      ensures old(plan) != [] ==> f == old(plan)[0] && plan == old(plan)[1..]
    {
      f := *;
      if plan != [] {
        f, plan := plan[0], plan[1..];
      }
    }

    // The container as it was, and n fates used up.
    twostate predicate Went(n: nat)
      reads this
    {
      && n <= |old(plan)| && plan == old(plan)[n..]
      && running == old(running) && startedAt == old(startedAt) && stopping == old(stopping)
      && ours == old(ours) && meddled == old(meddled)
    }

    // Time passes: a dispatched stop may execute, other managers may act.
    method Interfere()
      requires Inv()
      modifies this`running, this`startedAt, this`stopping, this`clock, this`meddled
      ensures Inv() && old(startedAt) <= startedAt && (old(meddled) ==> meddled)
      ensures !meddled ==> startedAt == old(startedAt) && (running ==> old(running))
      ensures !meddled && !old(stopping) ==> running == old(running) && !stopping
      ensures plan != [] ==> Went(0)
    {
      if plan != [] {
        return;
      }
      var executes: bool, acts: bool, starts: bool := *, *, *;
      if stopping && executes {
        running, stopping := false, false;
      }
      if acts {
        meddled := true;
        if starts && !running {
          running, clock := true, clock + 1;
          startedAt := clock;
        } else if !starts {
          running := false;
        }
      }
    }

    // Progress: memory changes only once the write is known to have succeeded.
    method Progress(r: Recovery) returns (s: Outcome)
      requires Inv() && Known(r) && (ours == 1 ==> Marked(r)) && (!meddled ==> Undisturbed(r))
      modifies this`saved, this`mem, this`faults, this`plan
      ensures Inv()
      ensures s.Done? ==> saved == r && mem == r && faults == old(faults)
      ensures !s.Done? ==> mem == old(mem) && (saved == r || saved == old(saved)) && faults > old(faults)
      ensures old(plan) != [] ==> Went(1) && s == ResultOf(old(plan)[0])
      ensures old(plan) != [] && old(plan)[0].effect ==> saved == r
    {
      var f := Next();
      if f.effect || !f.fails {
        saved := r;
      }
      if f.fails {
        faults := faults + 1;
      } else {
        mem := r;
      }
      return ResultOf(f);
    }

    // An observation fails on the daemon's side, or for good.
    method Inspect() returns (s: Outcome, seen: Seen, public: bool)
      requires Inv()
      modifies this`running, this`startedAt, this`stopping, this`clock, this`meddled, this`faults, this`plan
      ensures Inv() && old(startedAt) <= startedAt && (old(meddled) ==> meddled)
      ensures !meddled ==> startedAt == old(startedAt) && (running ==> old(running))
      ensures !meddled && !old(stopping) ==> running == old(running) && !stopping
      ensures s.Done? ==> seen == Seen(running, startedAt)
      ensures faults == old(faults) + (if s.Done? then 0 else 1) && (public ==> s.Failed?)
      ensures old(plan) != [] ==> Went(1) && s == ResultOf(old(plan)[0])
    {
      Interfere();
      seen := Seen(running, startedAt);
      var f := Next();
      s := ResultOf(f);
      faults := faults + (if s.Done? then 0 else 1);
      var lasting: bool := *;
      public := lasting && s.Failed?;
    }

    /** Docker's start, whose response can get lost. */
    method Start() returns (s: Outcome)
      requires Inv() && ours == 0 && mem.startRequested && saved == mem && !StopPending(mem)
      modifies this`running, this`startedAt, this`clock, this`ours, this`faults, this`plan
      ensures Inv() && old(startedAt) <= startedAt
      ensures s.Done? ==> running && faults == old(faults)
      ensures ours == 1 ==> running && !old(running)
      ensures ours == 1 || (running == old(running) && startedAt == old(startedAt))
      ensures !s.Done? ==> faults > old(faults)
    {
      var f := Next();
      if !running && (f.effect || !f.fails) {
        running, clock := true, clock + 1;
        startedAt, ours := clock, 1;
      }
      if f.fails {
        faults := faults + 1;
      }
      s := ResultOf(f);
    }

    /** Docker's stop: it returns once the container stopped, or fails with the
      * stop possibly still executing. */
    method Stop() returns (s: Outcome)
      requires Inv() && (!meddled && running ==> StopPending(saved) && StopPending(mem))
      requires !saved.stateRestored && !mem.stateRestored
      modifies this`running, this`stopping, this`faults, this`plan
      ensures Inv()
      ensures s.Done? ==> !running && !stopping && faults == old(faults)
      ensures !s.Done? ==> faults > old(faults) && (running ==> old(running))
      ensures old(plan) != [] ==> plan == old(plan)[1..] && s == ResultOf(old(plan)[0])
      ensures old(plan) != [] && old(plan)[0].effect && old(plan)[0].executes ==> !running && !stopping
    {
      var f := Next();
      s := ResultOf(f);
      if f.fails {
        faults := faults + 1;
        if !f.effect {
          return;
        }
      }
      stopping := running && f.fails && !f.executes;
      running := stopping;
    }

    /** stopForData. */
    method StopForData() returns (s: Outcome)
      requires Inv() && mem == NEW && saved == NEW && ours == 0 && !stopping
      modifies this
      ensures Inv() && ours == 0 && !mem.startRequested && !saved.startRequested
      ensures s.Done? ==> mem.initialRunning.Some? && mem.stoppedAt.Some? && !StopPending(mem) && saved == mem
      ensures !s.Done? ==> faults > old(faults) || meddled
      ensures s.Done? && !meddled ==>
              !running && mem.initialRunning == Some(old(running)) && mem.stoppedAt == Some(startedAt)
      ensures !meddled && old(running) && (stopping || !running) ==> saved.initialRunning == Some(true)
      ensures FineThenUnheard(old(plan), 2) && old(running) ==>
        && s.Crashed? && plan == old(plan)[3..] && !running && !stopping && meddled == old(meddled)
        && saved == NEW.(initialRunning := Some(true), stopStarted := true, stopInitial := Some(startedAt))
    {
      assert FineThenUnheard(plan, 2) ==> plan[0] == plan[1] == FINE && plan[2] == DONE_UNHEARD;
      var seen: Seen, public;
      s, seen, public := Inspect();
      if !s.Done? {
        return;
      }
      s := Progress(mem.(stopStarted := seen.running, initialRunning := Some(seen.running),
                         stopInitial := if seen.running then Some(seen.startedAt) else None));
      if !s.Done? {
        return;
      }
      s := Stop();
      if s.Done? {
        s := RecordStopped();
      }
    }

    method RecordStopped() returns (s: Outcome)
      requires Inv() && ours == 0 && !stopping && !running
      modifies this`running, this`startedAt, this`stopping, this`clock, this`meddled, this`faults, this`saved,
        this`mem, this`plan
      ensures Inv() && (old(meddled) ==> meddled)
      ensures mem.initialRunning == old(mem).initialRunning && mem.startRequested == old(mem).startRequested
      ensures saved == old(saved) ||
              (saved.initialRunning == mem.initialRunning && saved.startRequested == mem.startRequested)
      ensures s.Done? ==> mem.stoppedAt.Some? && !StopPending(mem) && saved == mem
      ensures !s.Done? ==> faults > old(faults) || meddled
      ensures !meddled ==> !running && !stopping && startedAt == old(startedAt)
      ensures s.Done? && !meddled ==> mem.stoppedAt == Some(startedAt)
    {
      var seen, public;
      s, seen, public := Inspect();
      if !s.Done? {
        return;
      }
      if seen.running {
        return RestoreHelper.Failed;
      }
      s := Progress(mem.(stoppedAt := Some(seen.startedAt), stopSettled := true));
    }

    /** observeDuringStop: exactly the daemon's failures are retried, while a stop
      * is pending and there is time. */
    method Observe(polls: nat) returns (s: Outcome, seen: Seen, left: nat, public: bool)
      requires Inv()
      modifies this`running, this`startedAt, this`stopping, this`clock, this`meddled, this`faults, this`plan
      ensures Inv() && old(startedAt) <= startedAt && (old(meddled) ==> meddled) && left <= polls
      ensures !meddled ==> startedAt == old(startedAt) && (running ==> old(running))
      ensures s.Done? ==> seen == Seen(running, startedAt)
      ensures faults + left == old(faults) + polls + (if s.Done? then 0 else 1)
      ensures left < polls ==> StopPending(mem)
      ensures s.Failed? ==> public || !StopPending(mem) || left == 0
      ensures old(plan) != [] && !old(plan)[0].fails ==> s.Done? && Went(1)
    {
      left := polls;
      s, seen, public := Inspect();
      while s.Failed? && StopPending(mem) && !public && left > 0
        invariant Inv() && old(startedAt) <= startedAt && (old(meddled) ==> meddled) && left <= polls
        invariant !meddled ==> startedAt == old(startedAt) && (running ==> old(running))
        invariant s.Done? ==> seen == Seen(running, startedAt)
        invariant faults + left == old(faults) + polls + (if s.Done? then 0 else 1)
        invariant left < polls ==> StopPending(mem)
        invariant old(plan) != [] && !old(plan)[0].fails ==> s.Done? && Went(1)
      {
        left := left - 1;
        s, seen, public := Inspect();
      }
    }

    /** settleInterruptedStop: wait for a stop that may still execute, without
      * dispatching it again; None if another manager started the server. */
    method Settle(polls: nat) returns (s: Outcome, observed: Option<Seen>)
      requires Inv()
      modifies this`running, this`startedAt, this`stopping, this`clock, this`meddled, this`faults, this`saved,
        this`mem, this`plan
      ensures Inv() && old(startedAt) <= startedAt && (old(meddled) ==> meddled)
      ensures !meddled ==> startedAt == old(startedAt) && (running ==> old(running))
      ensures mem == old(mem) || mem == old(mem).(stopSettled := true)
      ensures s.Done? ==> !StopPending(mem)
      ensures faults >= old(faults)
      ensures s.Done? && observed.Some? ==> observed.value == Seen(running, startedAt)
      ensures s.Done? && observed.None? ==> meddled
      ensures s.Done? && observed.Some? && StopPending(old(mem)) ==> !observed.value.running
      ensures !s.Done? ==> faults > old(faults) || (running && StopPending(old(mem)))
      ensures Fine(old(plan), 3) && StopPending(old(mem)) && !old(running) ==>
        s.Done? && observed == Some(Seen(running, startedAt)) && mem == old(mem).(stopSettled := true) && Went(3)
    {
      var seen, left, public;
      s, seen, left, public := Observe(polls);
      observed := Some(seen);
      if !s.Done? || !StopPending(mem) {
        return;
      }
      s := Progress(mem);
      if !s.Done? {
        return;
      }
      s, observed := AwaitStopped(seen, left);
    }

    method AwaitStopped(first: Seen, polls: nat) returns (s: Outcome, observed: Option<Seen>)
      requires Inv() && StopPending(mem) && first == Seen(running, startedAt)
      modifies this`running, this`startedAt, this`stopping, this`clock, this`meddled, this`faults, this`saved,
        this`mem, this`plan
      ensures Inv() && old(startedAt) <= startedAt && (old(meddled) ==> meddled)
      ensures !meddled ==> startedAt == old(startedAt) && (running ==> old(running))
      ensures mem == old(mem) || mem == old(mem).(stopSettled := true)
      ensures s.Done? ==> !StopPending(mem)
      ensures s.Done? && observed.Some? ==> observed.value == Seen(running, startedAt) && !observed.value.running
      ensures s.Done? && observed.None? ==> meddled
      ensures faults >= old(faults) && (!s.Done? ==> faults > old(faults) || running)
      ensures Fine(old(plan), 1) && !first.running ==>
        s.Done? && observed == Some(first) && mem == old(mem).(stopSettled := true) && Went(1)
    {
      var seen, left, public := first, polls, false;
      s := RestoreHelper.Done;
      while seen.running
        invariant Inv() && old(startedAt) <= startedAt && (old(meddled) ==> meddled) && mem == old(mem) &&
                  StopPending(mem)
        invariant !meddled ==> startedAt == old(startedAt) && (running ==> old(running))
        invariant s.Done? && seen == Seen(running, startedAt) && faults >= old(faults)
        invariant !first.running ==> !seen.running && Went(0)
        decreases left
      {
        if mem.stopInitial.Some? && seen.startedAt != mem.stopInitial.value {
          s := Progress(mem.(stopSettled := true));
          return s, None;
        }
        if left == 0 {
          return RestoreHelper.Failed, None;
        }
        s, seen, left, public := Observe(left - 1);
        if !s.Done? {
          return s, None;
        }
      }
      s := Progress(mem.(stopSettled := true));
      observed := Some(seen);
    }

    // Save that a start is requested, look once more, and start.
    method Dispatch() returns (s: Outcome)
      requires Inv() && ours == 0 && !StopPending(mem)
      modifies this
      ensures Inv() && (old(meddled) ==> meddled)
      ensures !s.Done? ==> mem == old(mem) || mem == old(mem).(startRequested := true)
      ensures s.Done? ==> running && mem == saved == old(mem).(startRequested := true)
      ensures if s.Done? then faults == old(faults) else faults > old(faults)
      ensures FineThenUnheard(old(plan), 0) ==> s.Crashed? && saved == old(mem).(startRequested := true) && Went(1)
    {
      s := Progress(mem.(startRequested := true));
      if !s.Done? {
        return;
      }
      var seen, public;
      s, seen, public := Inspect();
      if !s.Done? {
        return;
      }
      var changed: bool := *;
      if changed {
        faults := faults + 1;
        return RestoreHelper.Failed;
      }
      s := Start();
    }

    // A start that was requested earlier did not take effect.
    method Untaken() returns (s: Outcome, untaken: bool)
      requires Inv() && !StopPending(mem)
      modifies this`running, this`startedAt, this`stopping, this`clock, this`meddled, this`faults, this`plan
      ensures Inv() && (old(meddled) ==> meddled)
      ensures !meddled ==> running == old(running)
      ensures s.Done? && untaken ==> ours == 0 && !Forgotten(mem)
      ensures s.Done? && !untaken && !meddled ==> running || Forgotten(mem)
      ensures s.Done? ==> (untaken <==> !mem.startRequested || mem.stoppedAt == Some(startedAt))
      ensures if s.Done? then faults == old(faults) else faults > old(faults)
      ensures !mem.startRequested ==> s.Done? && untaken && Went(0)
    {
      untaken := true;
      s := RestoreHelper.Done;
      if mem.startRequested {
        var seen, public;
        s, seen, public := Inspect();
        untaken := mem.stoppedAt == Some(seen.startedAt);
      }
    }

    // The start, unless an earlier one reached Docker.
    method StartIfUntaken() returns (s: Outcome, started: bool)
      requires Inv() && !StopPending(mem)
      modifies this
      ensures Inv() && (old(meddled) ==> meddled)
      ensures if s.Done? then faults == old(faults) else faults > old(faults)
      ensures s.Done? && started ==> running && mem == saved == old(mem).(startRequested := true)
      ensures s.Done? && !started ==>
                mem == old(mem) && mem.startRequested && mem.stoppedAt != Some(startedAt) &&
                  (!meddled ==> running || Forgotten(mem))
      ensures !s.Done? ==> mem == old(mem) || mem == old(mem).(startRequested := true)
      ensures !meddled && Forgotten(old(mem)) && !old(running) ==> !running && ours == old(ours)
      ensures FineThenUnheard(old(plan), 0) && !old(mem).startRequested ==>
                s.Crashed? && saved == old(mem).(startRequested := true) && Went(1)
    {
      hide Known, Marked, Undisturbed;
      started := false;
      var untaken;
      s, untaken := Untaken();
      if s.Done? && untaken {
        s := Dispatch();
        started := s.Done?;
      }
    }

    /** restoreInitialState. A start takes effect only while the data is safe;
      * undisturbed, a completed call leaves the server running, unless a start
      * was requested and the stop it follows was never recorded: then a server
      * found stopped stays stopped. */
    method RestoreInitialState(d: DataState, polls: nat) returns (s: Outcome)
      requires Inv()
      modifies this
      ensures Inv() && (old(meddled) ==> meddled)
      ensures old(mem).initialRunning != Some(true) || old(mem).stateRestored || !Safe(d) ==>
                s.Done? && unchanged(this)
      ensures !s.Done? ==> faults > old(faults) || (running && StopPending(old(mem)))
      ensures s.Done? && Wanted(old(mem), d) ==>
                (mem.stateRestored && saved == mem) || (mem.startRequested && mem.stoppedAt != Some(startedAt))
      ensures ours > old(ours) ==> Wanted(old(mem), d)
      ensures mem.initialRunning == old(mem).initialRunning && mem.stoppedAt == old(mem).stoppedAt
      ensures s.Done? && !meddled && mem.initialRunning == Some(true) && Safe(d) ==> running || Forgotten(mem)
      ensures !meddled && Forgotten(old(mem)) && !old(running) ==> !running && ours == old(ours)
      ensures FineThenUnheard(old(plan), 3) && Wanted(old(mem), d) && StopPending(old(mem)) ==>
        !old(running) && !old(mem).startRequested ==>
          s.Crashed? && saved == old(mem).(stopSettled := true, startRequested := true) && Went(4)
    {
      hide Known, Marked, Undisturbed, Safe;
      RestoredRuns();
      if !Wanted(mem, d) {
        return RestoreHelper.Done;
      }
      var observed;
      s, observed := Settle(polls);
      if !s.Done? {
        return;
      }
      if observed.None? {
        MayBeRestored();
        s := Progress(mem.(stateRestored := true));
        return;
      }
      if !observed.value.running {
        var started;
        s, started := StartIfUntaken();
        if !s.Done? || !started {
          return;
        }
      }
      MayBeRestored();
      s := Progress(mem.(stateRestored := true));
    }

    lemma RestoredRuns()
      requires Inv()
      ensures !meddled && mem.stateRestored ==> running
    {
    }

    lemma MayBeRestored()
      requires Inv() && !StopPending(mem) && (!meddled ==> running)
      ensures var r := mem.(stateRestored := true);
              Known(r) && (ours == 1 ==> Marked(r)) && (!meddled ==> Undisturbed(r))
    {
    }

    /** The start in runBackupRestart, the first of its operation. */
    method StartOnce() returns (s: Outcome)
      requires Inv() && !mem.startRequested && !StopPending(mem)
      modifies this
      ensures Inv()
      ensures s.Done? ==> running && mem.startRequested && mem.stateRestored && saved == mem
      ensures !s.Done? ==> faults > old(faults)
      ensures ours > old(ours) ==> saved.startRequested
    {
      s := Dispatch();
      if !s.Done? {
        return;
      }
      s := Progress(mem.(stateRestored := true));
    }

    // A restart of Ludock: only what was saved remains.
    method Reload()
      requires Inv()
      modifies this`mem, this`running, this`startedAt, this`stopping, this`clock, this`meddled
      ensures Inv() && mem == saved && (plan != [] ==> Went(0))
    {
      mem := saved;
      Interfere();
    }
  }

  /** A data operation, through any number of crashes at any step, recoveries
    * included: at most one of its starts takes effect. Undisturbed, one that
    * restarts its server completes with it running, and so does any recovery on
    * safe data of an operation that saved that its server was running, unless the
    * start was forgotten. */
  method OperateThroughCrashes(job: DataJob, restart: bool, data: seq<DataState>, polls: nat) returns (s: Outcome)
    requires job.Inv() && job.mem == NEW && job.saved == NEW && job.ours == 0 && !job.stopping
    modifies job
    ensures job.Inv() && job.ours <= 1
    ensures s.Done? && data == [] && !job.meddled ==> (job.running <==> restart)
    ensures s.Done? && data != [] && !job.meddled && Safe(data[|data| - 1]) && job.mem.initialRunning == Some(true) ==>
              job.running || Forgotten(job.mem)
  {
    s := job.StopForData();
    if s.Done? && restart {
      s := job.StartOnce();
    }
    for i := 0 to |data|
      invariant job.Inv()
      invariant i == 0 && s.Done? && !job.meddled ==> (job.running <==> restart)
      invariant i > 0 && s.Done? && !job.meddled && Safe(data[i - 1]) && job.mem.initialRunning == Some(true) ==>
                  job.running || Forgotten(job.mem)
    {
      // Ludock can end whatever the last run made of it.
      var ends: bool := *;
      if s.Crashed? || ends {
        job.Reload();
      }
      s := job.RestoreInitialState(data[i], polls);
    }
  }

  /** A restore starts its server only while every root is wholly original, or
    * wholly new once the commit was saved. */
  method StartAfterRestore(job: DataJob, r: RestoreJob.Restore, polls: nat) returns (s: Outcome)
    requires job.Inv() && r.Inv()
    modifies job
    ensures job.Inv() && r.Inv()
    ensures job.ours > old(job.ours) ==>
      RestoreJob.LiveHolds(r.World(), if RestoreJob.IsCommitted(r.mem) then r.archive else r.original)
  {
    var d := DataState(true, r.mem, r.memUnsafe);
    if Safe(d) {
      RestoreJob.StartsOnWholeData(r.mem, r.World());
    }
    s := job.RestoreInitialState(d, polls);
  }

  // A stop that executes but is not heard of, and a start that is saved as
  // requested but not heard of, each with the end of Ludock.
  const FORGETTING := [FINE, FINE, DONE_UNHEARD, FINE, FINE, FINE, DONE_UNHEARD, FINE]

  /** Two crashes lead from a running server to a forgotten start: the operation
    * should start the server, and it stays stopped. */
  method ForgetStart(d: DataState, polls: nat) returns (job: DataJob)
    requires Safe(d)
    ensures job.Inv() && !job.meddled && job.ours == 0 && !job.running
    ensures Forgotten(job.mem) && Wanted(job.mem, d)
  {
    job := new DataJob(true, FORGETTING);
    var s := job.StopForData();
    job.Reload();
    s := job.RestoreInitialState(d, polls);
    job.Reload();
  }
}
