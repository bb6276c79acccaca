/** What running jobs hold, what waiting jobs wait for, and how many run. */
module RunnerLocks {

  import opened Wrappers
  import LockKeys
  import LockTable
  import opened Runner

  // A channel of the next release that was taken once.
  predicate Open(locks: LockTable.State, released: nat) {
    released !in locks.closed ==> locks.released == Some(released)
  }

  /** As long as the channel is open, the keys are in the way of each other. */
  predicate Blocked(locks: LockTable.State, released: nat, keys: seq<string>) {
    released !in locks.closed ==>
      locks.released == Some(released) && LockTable.Conflicts(locks.active, LockTable.Ordered(keys)) != {}
  }

  predicate WaitOk(locks: LockTable.State, w: Worker) {
    match w.pc
    case Trying(released) => Open(locks, released)
    case Refused(released, attempt) =>
      Open(locks, released) && !attempt.Granted? && (!attempt.Recovering? ==> Blocked(locks, released, w.keys))
    case Deciding(released, attempt) =>
      Open(locks, released) && !attempt.Granted? && (!attempt.Recovering? ==> Blocked(locks, released, w.keys))
    case Requeueing(released, _, _) => Blocked(locks, released, w.keys)
    case Requeued(released, _, _) => Blocked(locks, released, w.keys)
    case Yielding(released, _) => Blocked(locks, released, w.keys)
    case Holding(lease) => lease in locks.leases && locks.leases[lease] == LockTable.Ordered(w.keys)
    case Acting(lease) => lease in locks.leases && locks.leases[lease] == LockTable.Ordered(w.keys)
    case _ => true
  }

  ghost predicate AllWait(locks: LockTable.State, workers: map<nat, Worker>) {
    forall id :: id in workers ==> WaitOk(locks, workers[id])
  }

  ghost predicate OwnLeases(workers: map<nat, Worker>) {
    forall a, b :: (a in workers && b in workers && Holds(workers[a].pc) && Holds(workers[b].pc) &&
                    workers[a].pc.lease == workers[b].pc.lease) ==> a == b
  }

  ghost predicate WaitersOk(locks: LockTable.State, waiters: set<Waiter>) {
    forall w :: w in waiters ==> Blocked(locks, w.released, w.keys)
  }

  ghost predicate Waited(waiters: set<Waiter>, op: nat) {
    exists w :: w in waiters && w.op == op
  }

  function Held(workers: map<nat, Worker>): set<nat> {
    set id | id in workers && Holds(workers[id].pc) :: workers[id].pc.lease
  }

  /** Every lease is held by a job's goroutine or by a request outside the
    * runner, never by both. */
  predicate Owned(st: State) {
    st.locks.leases.Keys == st.outside + Held(st.workers) && st.outside !! Held(st.workers)
  }

  ghost predicate LocksOk(st: State) {
    && LockTable.Valid(st.locks) && AllWait(st.locks, st.workers) && OwnLeases(st.workers) &&
      WaitersOk(st.locks, st.waiters)
    && forall op :: op in st.waiting ==> Waited(st.waiters, op)
  }

  lemma StepBlocked(locks: LockTable.State, e: LockTable.Event, released: nat, keys: seq<string>)
    requires LockTable.Valid(locks)
    ensures Open(locks, released) ==> Open(LockTable.Apply(locks, e), released)
    ensures Blocked(locks, released, keys) ==> Blocked(LockTable.Apply(locks, e), released, keys)
  {
  }

  lemma StepKeepsLease(locks: LockTable.State, e: LockTable.Event, lease: nat)
    requires LockTable.Valid(locks) && lease in locks.leases && e != LockTable.Releasing(lease)
    ensures lease in LockTable.Apply(locks, e).leases && LockTable.Apply(locks, e).leases[lease] == locks.leases[lease]
  {
    hide LockTable.Ordered, LockTable.Conflicts, LockTable.Take;
  }

  lemma StepWaits(locks: LockTable.State, e: LockTable.Event, w: Worker)
    requires LockTable.Valid(locks) && WaitOk(locks, w) && (Holds(w.pc) ==> e != LockTable.Releasing(w.pc.lease))
    ensures WaitOk(LockTable.Apply(locks, e), w)
  {
    hide LockTable.Valid, LockTable.Apply, Open, Blocked;
    match w.pc
    case Trying(released) => StepBlocked(locks, e, released, w.keys);
    case Refused(released, _) => StepBlocked(locks, e, released, w.keys);
    case Deciding(released, _) => StepBlocked(locks, e, released, w.keys);
    case Requeueing(released, _, _) => StepBlocked(locks, e, released, w.keys);
    case Requeued(released, _, _) => StepBlocked(locks, e, released, w.keys);
    case Yielding(released, _) => StepBlocked(locks, e, released, w.keys);
    case Holding(lease) => StepKeepsLease(locks, e, lease);
    case Acting(lease) => StepKeepsLease(locks, e, lease);
    case _ =>
  }

  // The locks take a step; every worker but one stays where it is.
  lemma StepKeepsOthers(st: State, e: LockTable.Event, id: int)
    requires LocksOk(st)
    requires forall other :: other in st.workers && other != id && Holds(st.workers[other].pc) ==>
      e != LockTable.Releasing(st.workers[other].pc.lease)
    ensures var locks := LockTable.Apply(st.locks, e);
      && LockTable.Valid(locks) && WaitersOk(locks, st.waiters)
      && forall other :: other in st.workers && other != id ==> WaitOk(locks, st.workers[other])
  {
    hide LockTable.Valid, LockTable.Apply, WaitOk, Blocked;
    LockTable.StepKeepsValid(st.locks, e);
    var locks := LockTable.Apply(st.locks, e);
    forall other | other in st.workers && other != id
      ensures WaitOk(locks, st.workers[other])
    {
      StepWaits(st.locks, e, st.workers[other]);
    }
    forall w | w in st.waiters
      ensures Blocked(locks, w.released, w.keys)
    {
      StepBlocked(st.locks, e, w.released, w.keys);
    }
  }

  // Only one worker moves, and it does not take over a lease.
  lemma MoveLocks(st: State, after: State, id: nat)
    requires LocksOk(st) && id in st.workers && id in after.workers
    requires after.workers == st.workers[id := after.workers[id]]
    requires LockTable.Valid(after.locks) && WaitersOk(after.locks, st.waiters)
    requires forall other :: other in st.workers && other != id ==> WaitOk(after.locks, st.workers[other])
    requires WaitOk(after.locks, after.workers[id])
    requires Holds(after.workers[id].pc) ==>
             forall other :: other in st.workers && other != id && Holds(st.workers[other].pc) ==>
      st.workers[other].pc.lease != after.workers[id].pc.lease
    requires after.waiting == st.waiting && after.waiters == st.waiters
    ensures LocksOk(after)
  {
    hide LockTable.Valid, WaitOk, Blocked, Waited;
  }

  // A worker moves and leaves the locks alone.
  lemma QuietMove(st: State, after: State, id: nat)
    requires LocksOk(st) && id in st.workers && id in after.workers
    requires after.workers == st.workers[id := after.workers[id]]
    requires after.locks == st.locks && after.waiting == st.waiting && after.waiters == st.waiters
    requires WaitOk(st.locks, after.workers[id])
    requires Holds(after.workers[id].pc) ==>
             Holds(st.workers[id].pc) && st.workers[id].pc.lease == after.workers[id].pc.lease
    ensures LocksOk(after)
  {
  }

  lemma AwaitLocks(st: State, id: nat, keys: seq<string>)
    requires LocksOk(st) && id in st.workers
    ensures LocksOk(DoAwait(st, id, keys))
  {
    hide LockTable.Valid, Blocked, Waited, AllWait, OwnLeases, WaitersOk, LocksOk;
    StepKeepsOthers(st, LockTable.Awaiting, id);
    var after := DoAwait(st, id, keys);
    assert WaitOk(after.locks, after.workers[id]);
    MoveLocks(st, after, id);
  }

  lemma TryLocks(st: State, id: nat, released: nat)
    requires LocksOk(st) && id in st.workers && st.workers[id].pc == Trying(released)
    ensures LocksOk(DoTry(st, id, released))
  {
    hide LockTable.Valid, Waited, OwnLeases, WaitersOk, LockTable.Ordered, LockTable.Conflicts, LockTable.Take;
    var w := st.workers[id];
    StepKeepsOthers(st, LockTable.Acquiring(w.keys, false, false), id);
    var after := DoTry(st, id, released);
    assert WaitOk(st.locks, w);
    assert WaitOk(after.locks, after.workers[id]);
    var attempt := LockTable.Attempted(st.locks, w.keys, false, false).1;
    if attempt.Granted? {
      assert attempt.id !in st.locks.leases by { NextIsNew(st.locks); }
      assert forall other :: other in st.workers && Holds(st.workers[other].pc) ==> WaitOk(st.locks, st.workers[other]);
    }
    MoveLocks(st, after, id);
  }

  lemma NextIsNew(locks: LockTable.State)
    requires LockTable.Valid(locks)
    ensures locks.next !in locks.leases
  {
  }

  lemma ActingLocks(st: State, id: nat, lease: nat, outcome: Outcome)
    requires LocksOk(st) && id in st.workers && st.workers[id].pc == Acting(lease)
    ensures LocksOk(At(st.(locks := LockTable.Released(st.locks, lease)), id, Finishing(outcome)))
  {
    hide LockTable.Valid, Waited, WaitersOk, AllWait, WaitOk, LockTable.Released;
    StepKeepsOthers(st, LockTable.Releasing(lease), id);
    var after := At(st.(locks := LockTable.Released(st.locks, lease)), id, Finishing(outcome));
    FreeToFinish(after.locks, after.workers[id]);
    MoveLocks(st, after, id);
  }

  lemma FreeToFinish(locks: LockTable.State, w: Worker)
    requires w.pc.Claiming? || w.pc.Handling? || w.pc.Finishing? || w.pc.Leaving?
    ensures WaitOk(locks, w)
  {
  }

  lemma WaitLocks(st: State, id: nat, released: nat, settled: nat, holdsQueue: bool)
    requires LocksOk(st) && id in st.workers && st.workers[id].pc == Requeued(released, settled, holdsQueue)
    ensures LocksOk(DoWait(st, id, released, settled, holdsQueue))
  {
    hide LockTable.Valid, Blocked;
    var after := DoWait(st, id, released, settled, holdsQueue);
    assert WaitOk(st.locks, st.workers[id]);
    forall op | op in after.waiting
      ensures Waited(after.waiters, op)
    {
      if op in st.waiting {
        var w :| w in st.waiters && w.op == op;
        assert w in after.waiters && w.op == op;
      } else {
        var w := Waiter(op, released, st.workers[id].keys);
        assert w in after.waiters && w.op == op;
      }
    }
  }

  lemma LeaveLocks(st: State, id: nat)
    requires LocksOk(st) && id in st.workers
    ensures LocksOk(DoLeave(st, id))
  {
    hide LockTable.Valid, WaitOk, Blocked, Waited;
  }

  lemma RefusedLocks(st: State, id: nat)
    requires LocksOk(st) && id in st.workers && st.workers[id].op in st.rows && st.workers[id].pc.Refused?
    ensures LocksOk(DoWork(st, id, Going))
  {
    hide LockTable.Valid, Blocked, LocksOk, DoAwait, Open;
    WaitOf(st, id);
    var w := st.workers[id];
    if w.pc.released in st.locks.closed {
      AwaitLocks(st, id, w.keys);
    } else {
      QuietMove(st, DoWork(st, id, Going), id);
    }
  }

  // Every other step of a worker leaves the locks alone.
  lemma QuietWork(st: State, id: nat, choice: Choice)
    requires LocksOk(st) && id in st.workers
    requires match (st.workers[id].pc, choice) {
               case (Handling, Locking(_)) => false
               case (Trying(_), Going) => false
               case (Refused(_, _), Going) => false
               case (Acting(_), Returning(_)) => false
               case (Requeued(_, _, _), Going) => false
               case (Leaving, Going) => false
               case _ => true
             }
    ensures LocksOk(DoWork(st, id, choice))
  {
    hide LocksOk, Blocked, Open, Knows, DoAwait, DoTry, DoWait, DoLeave, LockTable.Released, LockTable.Valid;
    WaitOf(st, id);
    assert st.workers[id := st.workers[id]] == st.workers;
    QuietMove(st, DoWork(st, id, choice), id);
  }

  lemma WorkLocks(st: State, id: nat, choice: Choice)
    requires LocksOk(st)
    ensures LocksOk(DoWork(st, id, choice))
  {
    hide LocksOk, DoAwait, DoTry, DoWait, DoLeave, DoStart, DoDecide, DoAct, Persist, LockTable.Released;
    if id in st.workers && st.workers[id].op in st.rows {
      match (st.workers[id].pc, choice)
      case (Handling, Locking(keys)) => AwaitLocks(st, id, keys);
      case (Trying(released), Going) => TryLocks(st, id, released);
      case (Refused(released, attempt), Going) => RefusedLocks(st, id);
      case (Acting(lease), Returning(outcome)) => ActingLocks(st, id, lease, outcome);
      case (Requeued(released, settled, holdsQueue), Going) => WaitLocks(st, id, released, settled, holdsQueue);
      case (Leaving, Going) => LeaveLocks(st, id);
      case _ => QuietWork(st, id, choice);
    }
  }

  lemma WaitOf(st: State, id: nat)
    requires LocksOk(st) && id in st.workers
    ensures WaitOk(st.locks, st.workers[id])
  {
  }

  lemma StepLocks(st: State, e: Event)
    requires LocksOk(st) && Owned(st)
    ensures LocksOk(Do(st, e))
  {
    hide LockTable.Valid, WaitOk, Blocked, DoWork;
    match e
    case Work(id, choice) => WorkLocks(st, id, choice);
    case Outside(event) => OutsideLocks(st, event);
    case Unwait(waiter) => UnwaitLocks(st, waiter);
    case Crash => LockTable.EmptyIsValid();
    case Claim(op) => ClaimLocks(st, op);
    case _ =>
  }

  lemma ClaimLocks(st: State, op: nat)
    requires LocksOk(st)
    ensures LocksOk(DoClaim(st, op))
  {
    hide LockTable.Valid, Blocked;
  }

  lemma OutsideLocks(st: State, e: LockTable.Event)
    requires LocksOk(st) && Owned(st)
    ensures LocksOk(DoOutside(st, e))
  {
    hide LockTable.Valid, WaitOk, Blocked, LockTable.Attempted, LockTable.Released, LockTable.NextReleased;
    if DoOutside(st, e) != st {
      forall other | other in st.workers && Holds(st.workers[other].pc)
        ensures e != LockTable.Releasing(st.workers[other].pc.lease)
      {
        assert st.workers[other].pc.lease in Held(st.workers);
      }
      StepKeepsOthers(st, e, -1);
      assert DoOutside(st, e).locks == LockTable.Apply(st.locks, e);
    }
  }

  // Who owns the leases

  // A worker that keeps its lease, or holds none before and after.
  lemma SameHeld(workers: map<nat, Worker>, id: nat, w: Worker)
    requires id in workers && Holds(w.pc) == Holds(workers[id].pc)
    requires Holds(w.pc) ==> w.pc.lease == workers[id].pc.lease
    ensures Held(workers[id := w]) == Held(workers)
  {
    assert forall i :: i in workers && i != id ==> workers[id := w][i] == workers[i];
    forall lease | lease in Held(workers)
      ensures lease in Held(workers[id := w])
    {
      var i :| i in workers && Holds(workers[i].pc) && workers[i].pc.lease == lease;
      assert Holds(workers[id := w][i].pc) && workers[id := w][i].pc.lease == lease;
    }
  }

  lemma SameOwned(st: State, after: State, id: nat)
    requires Owned(st) && id in st.workers && id in after.workers
    requires after.workers == st.workers[id := after.workers[id]]
    requires after.locks.leases == st.locks.leases && after.outside == st.outside
    requires Holds(after.workers[id].pc) == Holds(st.workers[id].pc)
    requires Holds(after.workers[id].pc) ==> after.workers[id].pc.lease == st.workers[id].pc.lease
    ensures Owned(after)
  {
    SameHeld(st.workers, id, after.workers[id]);
  }

  lemma TryOwned(st: State, id: nat, released: nat)
    requires Owned(st) && id in st.workers && st.workers[id].pc == Trying(released) && LockTable.Valid(st.locks)
    ensures Owned(DoTry(st, id, released))
  {
    hide LockTable.Ordered, LockTable.Conflicts, LockTable.Take, LockTable.Valid;
    var after := DoTry(st, id, released);
    var attempt := LockTable.Attempted(st.locks, st.workers[id].keys, false, false).1;
    if attempt.Granted? {
      NextIsNew(st.locks);
      assert after.workers == st.workers[id := after.workers[id]];
      assert attempt.id in Held(after.workers) by { assert Holds(after.workers[id].pc); }
      assert Held(after.workers) ==
        Held(st.workers) + {attempt.id} by { OneMoreHeld(st.workers, id, after.workers[id]); }
    } else {
      SameOwned(st, after, id);
    }
  }

  lemma OneMoreHeld(workers: map<nat, Worker>, id: nat, w: Worker)
    requires id in workers && !Holds(workers[id].pc) && Holds(w.pc)
    ensures Held(workers[id := w]) == Held(workers) + {w.pc.lease}
  {
    var after := workers[id := w];
    assert after[id] == w && forall i :: i in workers && i != id ==> after[i] == workers[i];
    forall lease | lease in Held(workers)
      ensures lease in Held(after)
    {
      var i :| i in workers && Holds(workers[i].pc) && workers[i].pc.lease == lease;
      assert Holds(after[i].pc) && after[i].pc.lease == lease;
    }
  }

  lemma ActingOwned(st: State, id: nat, lease: nat, outcome: Outcome)
    requires Owned(st) && OwnLeases(st.workers) && id in st.workers && st.workers[id].pc == Acting(lease)
    ensures Owned(At(st.(locks := LockTable.Released(st.locks, lease)), id, Finishing(outcome)))
  {
    var after := At(st.(locks := LockTable.Released(st.locks, lease)), id, Finishing(outcome));
    assert lease in Held(st.workers);
    assert forall i :: i in st.workers && i != id ==> after.workers[i] == st.workers[i];
    forall other | other in Held(st.workers) && other != lease
      ensures other in Held(after.workers)
    {
      var i :| i in st.workers && Holds(st.workers[i].pc) && st.workers[i].pc.lease == other;
      assert Holds(after.workers[i].pc) && after.workers[i].pc.lease == other;
    }
    assert Held(after.workers) == Held(st.workers) - {lease};
  }

  lemma LeaveOwned(st: State, id: nat)
    requires Owned(st) && id in st.workers && !Holds(st.workers[id].pc)
    ensures Owned(DoLeave(st, id))
  {
    var after := DoLeave(st, id);
    assert forall i :: i in st.workers && i != id ==> after.workers[i] == st.workers[i];
    forall lease | lease in Held(st.workers)
      ensures lease in Held(after.workers)
    {
      var i :| i in st.workers && Holds(st.workers[i].pc) && st.workers[i].pc.lease == lease;
      assert Holds(after.workers[i].pc) && after.workers[i].pc.lease == lease;
    }
  }

  lemma QuietOwned(st: State, id: nat, choice: Choice)
    requires Owned(st) && id in st.workers && st.workers[id].op in st.rows
    requires match (st.workers[id].pc, choice) {
               case (Trying(_), Going) => false
               case (Acting(_), Returning(_)) => false
               case (Leaving, Going) => false
               case _ => true
             }
    ensures Owned(DoWork(st, id, choice))
  {
    hide Owned, DoTry, DoLeave, LockTable.Released, LockTable.Attempted;
    assert st.workers[id := st.workers[id]] == st.workers;
    SameOwned(st, DoWork(st, id, choice), id);
  }

  lemma WorkOwned(st: State, id: nat, choice: Choice)
    requires LocksOk(st) && Owned(st)
    ensures Owned(DoWork(st, id, choice))
  {
    hide LocksOk, Owned, DoStart, DoAwait, DoTry, DoDecide, DoAct, DoWait, DoLeave, Persist, LockTable.Released;
    if id in st.workers && st.workers[id].op in st.rows {
      LocksParts(st);
      match (st.workers[id].pc, choice)
      case (Trying(released), Going) => TryOwned(st, id, released);
      case (Acting(lease), Returning(outcome)) =>
        if !outcome.Interrupted? {
          ActingOwned(st, id, lease, outcome);
        }
      case (Leaving, Going) => LeaveOwned(st, id);
      case _ => QuietOwned(st, id, choice);
    }
  }

  lemma LocksParts(st: State)
    requires LocksOk(st)
    ensures LockTable.Valid(st.locks) && OwnLeases(st.workers)
  {
  }

  lemma OutsideOwned(st: State, e: LockTable.Event)
    requires Owned(st) && LockTable.Valid(st.locks)
    ensures Owned(DoOutside(st, e))
  {
    hide LockTable.Ordered, LockTable.Conflicts, LockTable.Take, LockTable.Valid, Held;
    NextIsNew(st.locks);
  }

  lemma ClaimOwned(st: State, op: nat)
    requires Owned(st) && st.nextWorker !in st.workers
    ensures Owned(DoClaim(st, op))
  {
    var after := DoClaim(st, op);
    assert forall i :: i in st.workers ==> after.workers[i] == st.workers[i];
    forall lease | lease in Held(st.workers)
      ensures lease in Held(after.workers)
    {
      var i :| i in st.workers && Holds(st.workers[i].pc) && st.workers[i].pc.lease == lease;
      assert Holds(after.workers[i].pc) && after.workers[i].pc.lease == lease;
    }
  }

  lemma StepOwned(st: State, e: Event)
    requires Inv(st) && LocksOk(st) && Owned(st)
    ensures Owned(Do(st, e))
  {
    hide LocksOk, DoWork, DoOutside, DoClaim, Unique, RowsOk, Distinct, AllWork, Knows;
    match e
    case Work(id, choice) => WorkOwned(st, id, choice);
    case Outside(event) => LocksParts(st); OutsideOwned(st, event);
    case Claim(op) =>
      assert forall id :: id in st.workers ==> WorkerOk(st, id);
      ClaimOwned(st, op);
    case Crash => assert Held(map[]) == {};
    case _ =>
  }

  lemma UnwaitLocks(st: State, waiter: Waiter)
    requires LocksOk(st)
    ensures LocksOk(DoUnwait(st, waiter))
  {
  }

  // How many run

  function Of(workers: map<nat, Worker>, lane: Lane): set<nat> {
    set id | id in workers && workers[id].lane == lane
  }

  ghost predicate LoadOk(st: State) {
    forall lane :: LoadOf(st.load, lane) == |Of(st.workers, lane)| <= Capacity(lane)
  }

  lemma SameLoad(st: State, after: State)
    requires LoadOk(st) && after.load == st.load && after.workers.Keys == st.workers.Keys
    requires forall id :: id in st.workers ==> after.workers[id].lane == st.workers[id].lane
    ensures LoadOk(after)
  {
    forall lane
      ensures Of(after.workers, lane) == Of(st.workers, lane)
    {
    }
  }

  lemma OneMore(workers: map<nat, Worker>, id: nat, w: Worker, lane: Lane)
    requires id !in workers
    ensures |Of(workers[id := w], lane)| == |Of(workers, lane)| + if w.lane == lane then 1 else 0
  {
    assert Of(workers[id := w], lane) == if w.lane == lane then Of(workers, lane) + {id} else Of(workers, lane);
  }

  lemma ClaimLoad(st: State, op: nat)
    requires LoadOk(st) && st.nextWorker !in st.workers
    ensures LoadOk(DoClaim(st, op))
  {
    hide Of;
    if DoClaim(st, op) != st {
      forall lane
        ensures LoadOf(DoClaim(st, op).load, lane) == |Of(DoClaim(st, op).workers, lane)| <= Capacity(lane)
      {
        OneMore(st.workers, st.nextWorker, Worker(op, st.rows[op].lane, [], Claiming), lane);
        assert LoadOf(st.load, lane) == |Of(st.workers, lane)|;
      }
    }
  }

  lemma LeaveLoad(st: State, id: nat)
    requires LoadOk(st) && id in st.workers
    ensures LoadOk(DoLeave(st, id))
  {
    var after := DoLeave(st, id);
    forall lane
      ensures LoadOf(after.load, lane) == |Of(after.workers, lane)| <= Capacity(lane)
    {
      assert Of(after.workers, lane) == Of(st.workers, lane) - {id};
    }
  }

  lemma WorkKeepsLoad(st: State, id: nat, choice: Choice)
    requires id in st.workers && !(st.workers[id].pc.Leaving? && choice.Going?)
    ensures DoWork(st, id, choice).load == st.load
  {
  }

  lemma WorkLoad(st: State, id: nat, choice: Choice)
    requires Inv(st) && LoadOk(st)
    ensures LoadOk(DoWork(st, id, choice))
  {
    hide Unique, LoadOk, MoveOk, RowsOk, Distinct, AllWork, RecoveringOk, DoWork;
    if id !in st.workers {
      IdleWork(st, id, choice);
    } else {
      assert WorkerOk(st, id);
      if st.workers[id].pc.Leaving? && choice.Going? {
        LeaveLoad(st, id);
        LeavingWork(st, id);
      } else {
        var status, pc, acted := WorkMoves(st, id, choice);
        WorkKeepsLoad(st, id, choice);
        var after := DoWork(st, id, choice);
        assert forall other :: other in st.workers ==> after.workers[other].(keys := []).lane == st.workers[other].lane;
        SameLoad(st, after);
      }
    }
  }

  lemma StepLoad(st: State, e: Event)
    requires Inv(st) && LoadOk(st)
    ensures LoadOk(Do(st, e))
  {
    hide LoadOk, Unique, RowsOk, Distinct, AllWork, Knows, DoWork, DoClaim;
    match e
    case Claim(op) =>
      assert forall id :: id in st.workers ==> WorkerOk(st, id);
      ClaimLoad(st, op);
    case Work(id, choice) => WorkLoad(st, id, choice);
    case Crash => IdleLoad(Do(st, e));
    case Start =>
      if Do(st, e) != st {
        IdleLoad(Do(st, e));
      }
    case _ => SameLoad(st, Do(st, e));
  }

  lemma IdleLoad(st: State)
    requires st.workers == map[] && st.load == IDLE
    ensures LoadOk(st)
  {
  }

  // Who holds the queue

  // A job that holds the queue, or is about to.
  predicate HoldsQueue(pc: Pc) {
    ((pc.Requeueing? || pc.Requeued?) && pc.holdsQueue) || pc.Yielding?
  }

  ghost predicate Others(workers: map<nat, Worker>, id: nat) {
    exists other :: other in workers && other != id
  }

  /** As long as no job ended since it decided to wait, the channel for that is
    * still the current one, and some other job is still there to end. */
  ghost predicate Backed(st: State, id: nat)
    requires id in st.workers
  {
    var pc := st.workers[id].pc;
    && (HoldsQueue(pc) ==> pc.settled < st.nextSettled)
    && (HoldsQueue(pc) && pc.settled !in st.ended ==> st.settled == Some(pc.settled) && Others(st.workers, id))
  }

  ghost predicate QueueOk(st: State) {
    && (forall id :: id in st.workers ==> Backed(st, id))
    && (forall c :: c in st.ended ==> c < st.nextSettled)
    && (st.settled.Some? ==> st.settled.value < st.nextSettled && st.settled.value !in st.ended)
  }

  // A step after which no channel changed and no worker left.
  lemma SameQueue(st: State, after: State)
    requires QueueOk(st) && after.settled == st.settled && after.ended == st.ended
    requires after.nextSettled == st.nextSettled
    requires st.workers.Keys <= after.workers.Keys
    requires forall id :: id in after.workers && id in st.workers ==> Keeps(st.workers[id].pc, after.workers[id].pc)
    requires forall id :: id in after.workers && id !in st.workers ==> !HoldsQueue(after.workers[id].pc)
    ensures QueueOk(after)
  {
  }

  lemma DecideQueue(st: State, id: nat, released: nat, attempt: LockTable.Attempt)
    requires QueueOk(st) && id in st.workers && AllWork(st.workers, st.claimed)
    ensures QueueOk(DoDecide(st, id, released, attempt))
  {
    var after := DoDecide(st, id, released, attempt);
    forall i | i in after.workers
      ensures Backed(after, i)
    {
      assert Backed(st, i);
      if i != id {
        if Others(st.workers, i) {
          var other :| other in st.workers && other != i;
          assert other in after.workers && other != i;
        }
      } else if HoldsQueue(after.workers[id].pc) {
        var op :| op in st.claimed && op != st.workers[id].op && op !in st.yielded;
        assert Works(st.workers, op);
        var other :| other in st.workers && st.workers[other].op == op;
        assert other in after.workers && other != id;
      }
    }
  }

  lemma LeaveQueue(st: State, id: nat)
    requires QueueOk(st) && id in st.workers
    ensures QueueOk(DoLeave(st, id))
  {
  }

  lemma StopQueue(st: State)
    requires QueueOk(st)
    ensures QueueOk(Do(st, Stop))
  {
  }

  // Every other step of a worker keeps its place in the queue or leaves it.
  predicate Keeps(before: Pc, after: Pc) {
    HoldsQueue(after) ==> HoldsQueue(before) && after.settled == before.settled
  }

  ghost predicate Quiet(st: State, after: State, id: nat)
    requires id in st.workers
  {
    && after.settled == st.settled && after.ended == st.ended && after.nextSettled == st.nextSettled
    && id in after.workers && after.workers == st.workers[id := after.workers[id]]
    && Keeps(st.workers[id].pc, after.workers[id].pc)
  }

  lemma QuietPersist(st: State, id: nat, write: Write, status: Status, next: Pc)
    requires id in st.workers && st.workers[id].op in st.rows && Keeps(st.workers[id].pc, next)
    ensures Quiet(st, Persist(st, id, write, status, next), id)
  {
  }

  lemma QuietStep(st: State, id: nat, choice: Choice)
    requires id in st.workers && st.workers[id].op in st.rows
    requires !(st.workers[id].pc.Leaving? && choice.Going?) && !(st.workers[id].pc.Deciding? && choice.Going?)
    ensures Quiet(st, DoWork(st, id, choice), id)
  {
    hide LockTable.Attempted, LockTable.NextReleased, LockTable.Released, DoLeave, DoDecide, Wakes, Persist, Quiet;
    var w := st.workers[id];
    if choice.Writing? && w.pc.Claiming? && st.rows[w.op].status == Queued {
      QuietPersist(st, id, choice.write, Running, Handling);
    } else if choice.Writing? && w.pc.Requeueing? {
      QuietPersist(st, id, choice.write, Queued, Requeued(w.pc.released, w.pc.settled, w.pc.holdsQueue));
    } else if choice.Writing? && w.pc.Finishing? {
      QuietPersist(st, id, choice.write, Finished(w.pc.outcome), Leaving);
    } else {
      QuietOther(st, id, choice);
    }
  }

  lemma QuietOther(st: State, id: nat, choice: Choice)
    requires id in st.workers && st.workers[id].op in st.rows
    requires !(st.workers[id].pc.Leaving? && choice.Going?) && !(st.workers[id].pc.Deciding? && choice.Going?)
    requires choice.Writing? ==> !st.workers[id].pc.Requeueing? && !st.workers[id].pc.Finishing?
    requires choice.Writing? && st.workers[id].pc.Claiming? ==> st.rows[st.workers[id].op].status != Queued
    ensures Quiet(st, DoWork(st, id, choice), id)
  {
    hide LockTable.Attempted, LockTable.NextReleased, LockTable.Released, DoLeave, DoDecide, Wakes, Persist;
    assert st.workers[id := st.workers[id]] == st.workers;
  }

  lemma QuietQueue(st: State, id: nat, choice: Choice)
    requires QueueOk(st) && id in st.workers && st.workers[id].op in st.rows
    requires !(st.workers[id].pc.Leaving? && choice.Going?) && !(st.workers[id].pc.Deciding? && choice.Going?)
    ensures QueueOk(DoWork(st, id, choice))
  {
    hide DoWork, QueueOk;
    QuietStep(st, id, choice);
    SameQueue(st, DoWork(st, id, choice));
  }

  lemma WorkQueue(st: State, id: nat, choice: Choice)
    requires QueueOk(st) && AllWork(st.workers, st.claimed)
    ensures QueueOk(DoWork(st, id, choice))
  {
    hide QueueOk, DoLeave, DoDecide, DoAwait, DoTry, DoWait, DoStart, DoAct, Persist, LockTable.Released, AllWork;
    if id in st.workers && st.workers[id].op in st.rows {
      var w := st.workers[id];
      if w.pc.Leaving? && choice.Going? {
        LeaveQueue(st, id);
      } else if w.pc.Deciding? && choice.Going? {
        DecideQueue(st, id, w.pc.released, w.pc.attempt);
      } else {
        QuietQueue(st, id, choice);
      }
    }
  }

  lemma StepQueue(st: State, e: Event)
    requires QueueOk(st) && Inv(st)
    ensures QueueOk(Do(st, e))
  {
    hide Unique, RowsOk, Distinct, AllWork, Backed, DoWork, QueueOk, EachOk, LockTable.Apply;
    match e
    case Work(id, choice) => WorkQueue(st, id, choice);
    case Stop => StopQueue(st);
    case Crash => NoQueue(st, Do(st, e));
    case Claim(op) => SameQueue(st, Do(st, e));
    case _ => SameQueue(st, Do(st, e));
  }

  lemma NoQueue(st: State, after: State)
    requires QueueOk(st) && after.workers == map[] && after.settled == None && after.ended == st.ended
    requires after.nextSettled == st.nextSettled
    ensures QueueOk(after)
  {
  }

  // Every run

  ghost predicate AllOk(st: State) {
    Inv(st) && LocksOk(st) && Owned(st) && LoadOk(st) && QueueOk(st)
  }

  lemma {:induction false} RunOk(events: seq<Event>)
    ensures AllOk(Run(FRESH, events))
  {
    hide Inv, LocksOk, Owned, LoadOk, QueueOk, Do;
    if events == [] {
      FreshIsOk();
      LockTable.EmptyIsValid();
      FreshLocks();
    } else {
      var before := events[..|events| - 1];
      RunOk(before);
      StepKeeps(Run(FRESH, before), events[|events| - 1]);
      StepLocks(Run(FRESH, before), events[|events| - 1]);
      StepOwned(Run(FRESH, before), events[|events| - 1]);
      StepLoad(Run(FRESH, before), events[|events| - 1]);
      StepQueue(Run(FRESH, before), events[|events| - 1]);
    }
  }

  lemma FreshLocks()
    ensures LocksOk(FRESH) && Owned(FRESH) && LoadOk(FRESH) && QueueOk(FRESH)
  {
  }

  /** Data operations run one at a time. */
  lemma DataAlone(events: seq<Event>, a: nat, b: nat)
    requires var workers := Run(FRESH, events).workers;
      a in workers && b in workers && workers[a].lane.Data? && workers[b].lane.Data?
    ensures a == b
  {
    hide Run;
    RunOk(events);
    var workers := Run(FRESH, events).workers;
    assert LoadOf(Run(FRESH, events).load, Data) <= Capacity(Data);
    var both := Of(workers, Data);
    if a != b {
      assert {a, b} <= both;
      Subset({a, b}, both);
    }
  }

  lemma Subset(small: set<nat>, large: set<nat>)
    requires small <= large
    ensures |small| <= |large|
  {
    if small != {} {
      var x :| x in small;
      Subset(small - {x}, large - {x});
    }
  }

  /** Actions that run at the same time never hold conflicting keys. */
  lemma ActionsApart(events: seq<Event>, a: nat, b: nat, k: string, l: string)
    requires var workers := Run(FRESH, events).workers;
      a in workers && b in workers && a != b && workers[a].pc.Acting? && workers[b].pc.Acting? &&
      k in workers[a].keys && l in workers[b].keys
    ensures !LockKeys.Conflict(k, l)
  {
    hide Run, Inv, LoadOk, LockKeys.Conflict, LockKeys.Overlaps, LockKeys.Normalize, LockTable.Waiting,
      LockTable.Bounded;
    RunOk(events);
    var st := Run(FRESH, events);
    WaitOf(st, a);
    WaitOf(st, b);
    LockKeys.OverlapsIsConflict(k, l);
    assert LockKeys.Normalize(k) in LockTable.Ordered(st.workers[a].keys);
    assert LockKeys.Normalize(l) in LockTable.Ordered(st.workers[b].keys);
    LockTable.ValidParts(st.locks);
  }

  /** No wake-up is lost: when the keys a queued job waits for are free, the
    * channel it waits on is closed, whether it holds the queue or left it. */
  lemma WaitersWake(events: seq<Event>, op: nat)
    ensures var st := Run(FRESH, events);
      && (forall id :: (id in st.workers && st.workers[id].pc.Yielding? &&
                        LockTable.Conflicts(st.locks.active, LockTable.Ordered(st.workers[id].keys)) == {}) ==>
            st.workers[id].pc.released in st.locks.closed)
      && (op in st.waiting ==> exists w :: w in st.waiters && w.op == op)
      && (forall w :: w in st.waiters && LockTable.Conflicts(st.locks.active, LockTable.Ordered(w.keys)) == {} ==>
            w.released in st.locks.closed)
  {
    hide Run, Inv, LoadOk, QueueOk, LockTable.Valid, LockTable.Conflicts, LockTable.Ordered;
    RunOk(events);
  }

  // The lease of a held key belongs to a request outside the runner, or to a
  // job that holds its keys now and so does not wait for any.
  predicate HeldByJob(st: State, lease: nat) {
    exists h :: h in st.workers && Holds(st.workers[h].pc) && st.workers[h].pc.lease == lease
  }

  lemma HolderOf(st: State, held: string)
    requires LocksOk(st) && Owned(st) && held in st.locks.active
    ensures st.locks.active[held].id in st.outside || HeldByJob(st, st.locks.active[held].id)
    ensures !(st.locks.active[held].id in st.outside && HeldByJob(st, st.locks.active[held].id))
  {
    hide LockTable.Apart, LockTable.Waiting, LockTable.Bounded, AllWait, OwnLeases, WaitersOk;
    var lease := st.locks.active[held].id;
    assert lease in st.locks.leases;
    if lease in Held(st.workers) {
      var h :| h in st.workers && Holds(st.workers[h].pc) && st.workers[h].pc.lease == lease;
    }
    if HeldByJob(st, lease) {
      var h :| h in st.workers && Holds(st.workers[h].pc) && st.workers[h].pc.lease == lease;
      assert lease in Held(st.workers);
    }
  }

  /** A job that holds the queue can wake, or a key in its way is held by a
    * request outside the runner or by a job past waiting, never by another job
    * that holds the queue; and another job is there to end. */
  lemma QueueIsHeldForSomeone(events: seq<Event>, id: nat)
    requires id in Run(FRESH, events).workers && Run(FRESH, events).workers[id].pc.Yielding?
    ensures var st := Run(FRESH, events);
      var w := st.workers[id];
      Wakes(st, w.pc.released, w.pc.settled) ||
      (Others(st.workers, id) &&
       exists held :: held in LockTable.Conflicts(st.locks.active, LockTable.Ordered(w.keys)) &&
         (st.locks.active[held].id in st.outside || HeldByJob(st, st.locks.active[held].id)))
  {
    hide Run, Inv, Owned, LoadOk, LocksOk, LockTable.Ordered, Others, HeldByJob, LockTable.Hits;
    RunOk(events);
    var st := Run(FRESH, events);
    var w := st.workers[id];
    WaitOf(st, id);
    assert Backed(st, id);
    if !Wakes(st, w.pc.released, w.pc.settled) {
      var held :| held in LockTable.Conflicts(st.locks.active, LockTable.Ordered(w.keys));
      HolderOf(st, held);
    }
  }

  // A row left running

  /** Running, and no goroutine is past the claim of it. */
  ghost predicate Orphan(st: State, op: nat) {
    && op in st.rows && st.rows[op].status == Running
    && forall id :: id in st.workers && st.workers[id].op == op ==>
      st.workers[id].pc.Claiming? || st.workers[id].pc.Leaving?
  }

  lemma CrashOrphans(st: State, op: nat)
    requires op in st.rows && st.rows[op].status == Running
    ensures Orphan(DoCrash(st), op)
  {
  }

  // A goroutine that only claims, or leaves, does not touch a running row.
  lemma ClaimOrphan(st: State, id: nat, choice: Choice, op: nat)
    requires Orphan(st, op) && id in st.workers && st.workers[id].op == op
    ensures Orphan(DoWork(st, id, choice), op) && DoWork(st, id, choice).started == st.started
  {
  }

  lemma LeaveOrphan(st: State, id: nat, op: nat)
    requires Orphan(st, op) && id in st.workers
    ensures Orphan(DoLeave(st, id), op) && DoLeave(st, id).started == st.started
  {
  }

  // Nor does a goroutine with another operation.
  lemma OtherOrphan(st: State, after: State, id: nat, status: Status, pc: Pc, acted: bool, op: nat)
    requires Orphan(st, op) && id in st.workers && st.workers[id].op in st.rows && st.workers[id].op != op
    requires Same(after, Moved(st, id, status, pc, acted))
    ensures Orphan(after, op) && after.started[op] == st.started[op]
  {
  }

  lemma WorkOrphan(st: State, id: nat, choice: Choice, op: nat)
    requires Inv(st) && Orphan(st, op)
    ensures Orphan(DoWork(st, id, choice), op) && DoWork(st, id, choice).started[op] == st.started[op]
  {
    hide DoWork, Unique, RowsOk, AllWork, Knows, MoveOk, Orphan, Moved, Same, DoLeave;
    if id !in st.workers {
      IdleWork(st, id, choice);
    } else {
      assert WorkerOk(st, id);
      if st.workers[id].op == op {
        ClaimOrphan(st, id, choice, op);
      } else if st.workers[id].pc.Leaving? && choice.Going? {
        LeavingWork(st, id);
        LeaveOrphan(st, id, op);
      } else {
        var status, pc, acted := WorkMoves(st, id, choice);
        OtherOrphan(st, DoWork(st, id, choice), id, status, pc, acted, op);
      }
    }
  }

  lemma StepOrphan(st: State, e: Event, op: nat)
    requires Inv(st) && Orphan(st, op)
    ensures var after := Do(st, e);
      && after.started[op] == st.started[op]
      && (Orphan(after, op) ||
        (e.Recover? && e.op == op && op in after.rows && after.rows[op].status == Finished(Interrupted)))
  {
    hide Unique, RowsOk, AllWork, DoWork, Knows;
    match e
    case Work(id, choice) => WorkOrphan(st, id, choice, op);
    case _ =>
  }

  // A row left running is only ever recovered.
  lemma {:induction false} OnlyRecovered(st: State, events: seq<Event>, op: nat)
    requires Inv(st) && Orphan(st, op)
    ensures var after := Run(st, events);
      && op in after.rows && (after.rows[op].status == Running || after.rows[op].status == Finished(Interrupted))
      && (after.rows[op].status == Running ==> Orphan(after, op)) && after.started[op] == st.started[op]
  {
    hide Inv, Do, Orphan;
    if events == [] {
      OrphanRuns(st, op);
    } else {
      var before := events[..|events| - 1];
      var mid := Run(st, before);
      OnlyRecovered(st, before, op);
      RunKeeps(st, before);
      if mid.rows[op].status == Running {
        StepOrphan(mid, events[|events| - 1], op);
        if Orphan(Run(st, events), op) {
          OrphanRuns(Run(st, events), op);
        }
      } else {
        StepKeepsFinished(mid, events[|events| - 1], op);
        FinishedNeverActs(mid, events[|events| - 1], op);
      }
    }
  }

  lemma OrphanRuns(st: State, op: nat)
    requires Orphan(st, op)
    ensures op in st.rows && st.rows[op].status == Running
  {
  }

  /** In every run and every continuation of it: an operation that runs when
    * Ludock crashes is never started again, and ends only as interrupted. */
  lemma CrashedIsNotRepeated(events: seq<Event>, more: seq<Event>, op: nat)
    requires op in Run(FRESH, events).rows && Run(FRESH, events).rows[op].status == Running
    ensures var after := Run(FRESH, events + [Crash] + more);
      && after.started[op] == Run(FRESH, events).started[op]
      && op in after.rows && (after.rows[op].status == Running || after.rows[op].status == Finished(Interrupted))
  {
    hide Inv, Run, Do, Orphan;
    var st := Run(FRESH, events);
    FreshIsOk();
    RunKeeps(FRESH, events);
    assert Run(st, [Crash]) == DoCrash(st) by { CrashRun(st); }
    RunTwice(FRESH, events, [Crash]);
    RunTwice(FRESH, events + [Crash], more);
    CrashKeeps(st);
    CrashOrphans(st, op);
    OnlyRecovered(DoCrash(st), more, op);
  }

  lemma CrashRun(st: State)
    ensures Run(st, [Crash]) == DoCrash(st)
  {
    assert [Crash][..0] == [];
    assert Run(st, []) == st;
  }
}
