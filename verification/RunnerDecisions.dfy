/** How a job that meets a conflict decides between waiting and failing: exactly
  * when the decision agrees with who holds its keys, and runs where it does not. */
module RunnerDecisions {

  import opened Wrappers
  import LockKeys
  import LockTable
  import opened Runner
  import opened RunnerLocks

  // Which jobs count as waiting

  /** A job counts as yielded from its wait on, until it decides again, starts
    * its action or ends. */
  ghost predicate YieldOk(st: State) {
    forall id :: id in st.workers ==>
      && (st.workers[id].pc.Yielding? ==> st.workers[id].op in st.yielded)
      && (st.workers[id].pc.Acting? || st.workers[id].pc.Requeueing? || st.workers[id].pc.Requeued? ==>
            st.workers[id].op !in st.yielded)
  }

  // Only one worker moves, and only its own job may start or stop counting.
  ghost predicate YieldMove(st: State, after: State, id: nat)
    requires id in st.workers
  {
    && id in after.workers && after.workers == st.workers[id := after.workers[id]]
    && after.workers[id].op == st.workers[id].op
    && after.yielded - {st.workers[id].op} == st.yielded - {st.workers[id].op}
    && (after.workers[id].pc.Yielding? ==> st.workers[id].op in after.yielded)
    && (after.workers[id].pc.Acting? || after.workers[id].pc.Requeueing? || after.workers[id].pc.Requeued? ==>
          st.workers[id].op !in after.yielded)
  }

  lemma MoveYields(st: State, after: State, id: nat)
    requires YieldOk(st) && Distinct(st.workers) && id in st.workers && YieldMove(st, after, id)
    ensures YieldOk(after)
  {
    forall other | other in after.workers && other != id
      ensures st.workers[other].op in after.yielded <==> st.workers[other].op in st.yielded
    {
      assert st.workers[other].op != st.workers[id].op;
      assert st.workers[other].op in after.yielded - {st.workers[id].op} <==>
             st.workers[other].op in st.yielded - {st.workers[id].op};
    }
  }

  lemma PersistMovesYield(st: State, id: nat, write: Write, status: Status, next: Pc)
    requires YieldOk(st) && id in st.workers && st.workers[id].op in st.rows && !next.Yielding?
    requires next.Acting? || next.Requeueing? || next.Requeued? ==> st.workers[id].op !in st.yielded
    ensures YieldMove(st, Persist(st, id, write, status, next), id)
  {
    assert st.workers[id := st.workers[id]] == st.workers;
  }

  lemma WriteMovesYield(st: State, id: nat, write: Write)
    requires YieldOk(st) && id in st.workers && st.workers[id].op in st.rows
    ensures YieldMove(st, DoWork(st, id, Writing(write)), id)
  {
    hide Persist, YieldMove, Wakes;
    var w := st.workers[id];
    if w.pc.Claiming? && st.rows[w.op].status == Queued {
      PersistMovesYield(st, id, write, Running, Handling);
    } else if w.pc.Requeueing? {
      PersistMovesYield(st, id, write, Queued, Requeued(w.pc.released, w.pc.settled, w.pc.holdsQueue));
    } else if w.pc.Finishing? {
      PersistMovesYield(st, id, write, Finished(w.pc.outcome), Leaving);
    } else {
      assert YieldMove(st, DoWork(st, id, Writing(write)), id) by { LeaveMovesYield(st, id, write); }
    }
  }

  lemma LeaveMovesYield(st: State, id: nat, write: Write)
    requires YieldOk(st) && id in st.workers && st.workers[id].op in st.rows
    requires !st.workers[id].pc.Requeueing? && !st.workers[id].pc.Finishing?
    requires st.workers[id].pc.Claiming? ==> st.rows[st.workers[id].op].status != Queued
    ensures YieldMove(st, DoWork(st, id, Writing(write)), id)
  {
    hide Persist, Wakes;
    assert st.workers[id := st.workers[id]] == st.workers;
  }

  lemma WorkMovesYield(st: State, id: nat, choice: Choice)
    requires YieldOk(st) && id in st.workers && st.workers[id].op in st.rows
    requires !(st.workers[id].pc.Leaving? && choice.Going?)
    ensures YieldMove(st, DoWork(st, id, choice), id)
  {
    if choice.Writing? {
      hide *;
      WriteMovesYield(st, id, choice.write);
    } else {
      hide LockTable.Attempted, LockTable.NextReleased, LockTable.Released, Persist, DoStart, DoLeave, Wakes;
      assert st.workers[id := st.workers[id]] == st.workers;
    }
  }

  lemma LeaveYields(st: State, id: nat)
    requires YieldOk(st) && Distinct(st.workers) && id in st.workers
    ensures YieldOk(DoLeave(st, id))
  {
    assert forall other :: other in st.workers && other != id ==> st.workers[other].op != st.workers[id].op;
  }

  lemma WorkYields(st: State, id: nat, choice: Choice)
    requires YieldOk(st) && Distinct(st.workers)
    ensures YieldOk(DoWork(st, id, choice))
  {
    hide DoWork, DoLeave, YieldMove, YieldOk, Distinct;
    if id !in st.workers {
      IdleWork(st, id, choice);
    } else if st.workers[id].op !in st.rows {
      RowlessWork(st, id, choice);
    } else if st.workers[id].pc.Leaving? && choice.Going? {
      LeavingWork(st, id);
      LeaveYields(st, id);
    } else {
      WorkMovesYield(st, id, choice);
      MoveYields(st, DoWork(st, id, choice), id);
    }
  }

  lemma RowlessWork(st: State, id: nat, choice: Choice)
    requires id in st.workers && st.workers[id].op !in st.rows
    ensures DoWork(st, id, choice) == st
  {
  }

  lemma StepYields(st: State, e: Event)
    requires Inv(st) && YieldOk(st)
    ensures YieldOk(Do(st, e))
  {
    hide Unique, RowsOk, EachOk, Distinct, AllWork, DoWork;
    match e
    case Work(id, choice) => WorkYields(st, id, choice);
    case _ =>
  }

  lemma {:induction false} RunYields(events: seq<Event>)
    ensures YieldOk(Run(FRESH, events))
  {
    hide Inv, Do, YieldOk;
    if events == [] {
      assert YieldOk(FRESH) by { FreshYields(); }
    } else {
      var before := events[..|events| - 1];
      RunYields(before);
      FreshIsOk();
      RunKeeps(FRESH, before);
      StepYields(Run(FRESH, before), events[|events| - 1]);
    }
  }

  lemma FreshYields()
    ensures YieldOk(FRESH)
  {
  }

  // The decision

  /** Another job is there that does not count as yielded. */
  predicate OtherBusy(st: State, id: nat) {
    exists other :: other in st.workers && other != id && st.workers[other].op !in st.yielded
  }

  function InTheWay(st: State, id: nat): (keys: set<string>)
    requires id in st.workers
    ensures keys <= st.locks.active.Keys
  {
    LockTable.Conflicts(st.locks.active, LockTable.Ordered(st.workers[id].keys))
  }

  predicate JobInTheWay(st: State, id: nat)
    requires id in st.workers
  {
    exists held :: held in InTheWay(st, id) && HeldByJob(st, st.locks.active[held].id)
  }

  /** What the documentation lets fail: a conflict with requests outside the
    * runner, and with no job. */
  predicate OnlyOutside(st: State, id: nat)
    requires id in st.workers
  {
    InTheWay(st, id) != {} && forall held :: held in InTheWay(st, id) ==> st.locks.active[held].id in st.outside
  }

  predicate Fails(st: State, id: nat) {
    id in Do(st, Work(id, Going)).workers && Do(st, Work(id, Going)).workers[id].pc == Finishing(Failed)
  }

  lemma BusyClaims(st: State, id: nat)
    requires Inv(st) && id in st.workers
    ensures OtherBusy(st, id) <==> exists op :: op in st.claimed && op != st.workers[id].op && op !in st.yielded
  {
    hide Unique, RowsOk, RecoveringOk, Knows;
    if OtherBusy(st, id) {
      var other :| other in st.workers && other != id && st.workers[other].op !in st.yielded;
      assert WorkerOk(st, other) && WorkerOk(st, id);
      assert st.workers[other].op in st.claimed && st.workers[other].op != st.workers[id].op;
    }
    if op :| op in st.claimed && op != st.workers[id].op && op !in st.yielded {
      assert Works(st.workers, op);
      var other :| other in st.workers && st.workers[other].op == op;
      assert other != id;
    }
  }

  /** In every run: a job that decides waits for background work; it fails on a
    * fence; and on any other conflict it holds the queue exactly if another job
    * is there that is not itself waiting. */
  lemma Decision(events: seq<Event>, id: nat, released: nat, attempt: LockTable.Attempt)
    requires id in Run(FRESH, events).workers && Run(FRESH, events).workers[id].pc == Deciding(released, attempt)
    ensures var st := Run(FRESH, events);
      var after := Do(st, Work(id, Going));
      && id in after.workers
      && (Fails(st, id) <==> attempt.Recovering? || (attempt.Conflicting? && !OtherBusy(st, id)))
      && (HoldsQueue(after.workers[id].pc) <==> attempt.Conflicting? && OtherBusy(st, id))
      && (attempt.Background? ==> after.workers[id].pc.Requeueing?)
  {
    hide Run, OtherBusy, AllWork, Distinct, Unique, RowsOk, Knows, LocksOk, Owned, LoadOk, QueueOk;
    RunOk(events);
    var st := Run(FRESH, events);
    BusyClaims(st, id);
    assert WorkerOk(st, id);
    assert WaitOk(st.locks, st.workers[id]) by { WaitOf(st, id); }
  }

  lemma NoJobHolds(st: State, id: nat, held: string)
    requires LocksOk(st) && Owned(st) && id in st.workers && held in InTheWay(st, id)
    ensures st.locks.active[held].id in st.outside <==> !HeldByJob(st, st.locks.active[held].id)
  {
    hide LocksOk, Owned, HeldByJob, LockTable.Ordered, LockTable.Hits;
    HolderOf(st, held);
  }

  /** A conflict fails exactly if it is one with requests outside the runner,
    * precisely where another busy job goes with a job in the way, or with no key
    * in the way any more. Whether or not it does:
    *
    * - a job whose action runs is never taken for a request outside the runner;
    * - a key in the way of a job that fails is held from outside the runner, or by
    *   a job that woke up, still counts as yielded and has just taken its keys;
    * - until a release the conflict is still there. */
  lemma ConflictVerdict(events: seq<Event>, id: nat, released: nat)
    requires id in Run(FRESH, events).workers
    requires Run(FRESH, events).workers[id].pc == Deciding(released, LockTable.Conflicting)
    ensures var st := Run(FRESH, events);
      && ((Fails(st, id) <==> OnlyOutside(st, id)) <==>
            (OtherBusy(st, id) <==> InTheWay(st, id) == {} || JobInTheWay(st, id)))
      && (Fails(st, id) ==> forall h :: h in st.workers ==> !st.workers[h].pc.Acting?)
      && (Fails(st, id) ==> forall h :: h in st.workers && st.workers[h].pc.Holding? ==> st.workers[h].op in st.yielded)
      && (released !in st.locks.closed ==> InTheWay(st, id) != {})
  {
    hide Run, Do, Inv, LoadOk, QueueOk, LocksOk, Owned, OtherBusy, HeldByJob, InTheWay;
    RunOk(events);
    RunYields(events);
    Decision(events, id, released, LockTable.Conflicting);
    var st := Run(FRESH, events);
    forall held | held in InTheWay(st, id)
      ensures st.locks.active[held].id in st.outside <==> !HeldByJob(st, st.locks.active[held].id)
    {
      NoJobHolds(st, id, held);
    }
    assert released !in st.locks.closed ==> InTheWay(st, id) != {} by {
      WaitOf(st, id);
      OpenIsBlocked(st, id, released);
    }
    if !OtherBusy(st, id) {
      NotBusy(st, id);
    }
  }

  lemma OpenIsBlocked(st: State, id: nat, released: nat)
    requires id in st.workers && WaitOk(st.locks, st.workers[id])
    requires st.workers[id].pc == Deciding(released, LockTable.Conflicting)
    ensures released !in st.locks.closed ==> InTheWay(st, id) != {}
  {
  }

  lemma NotBusy(st: State, id: nat)
    requires !OtherBusy(st, id)
    ensures forall h :: h in st.workers && h != id ==> st.workers[h].op in st.yielded
  {
  }

  // Runs in which the decision does not agree

  lemma RunPrefix(st: State, events: seq<Event>, k: nat, before: State, after: State)
    requires k < |events| && Run(st, events[..k]) == before && Do(before, events[k]) == after
    ensures Run(st, events[..k + 1]) == after
  {
    hide Do;
    assert events[..k + 1][..k] == events[..k];
  }

  lemma OneKey(key: string, owner: LockTable.Holder)
    ensures var k := LockKeys.Normalize(key);
      && LockTable.Ordered([key]) == [k]
      && LockTable.Take(map[], [k], owner) == map[k := owner]
      && LockTable.Conflicts(map[k := owner], [k]) == {k}
      && LockTable.Conflicts(map[], [k]) == {}
  {
    var k := LockKeys.Normalize(key);
    assert [key][..0] == [] && [k][..0] == [];
    assert LockTable.Ordered([]) == [];
    assert LockTable.Take(map[], [], owner) == map[];
    LockTable.Reflexive(k);
    assert k in [k] && LockTable.Hits([k], k);
  }

  // Two jobs, 0 and 1, of two servers, at the start of their handlers.
  const BOTH_RUN := [Start, Enqueue(0, 0, Lifecycle, None), Enqueue(1, 1, Lifecycle, None), Read, Claim(0), Claim(1),
                     Work(0, Writing(Saved)), Work(1, Writing(Saved))]

  function Rows(a: Status, b: Status): map<nat, Row> {
    map[0 := Row(0, Lifecycle, None, a), 1 := Row(1, Lifecycle, None, b)]
  }

  function Pair(a: Status, b: Status, keys: seq<string>, more: seq<string>, p: Pc, q: Pc): State {
    FRESH.(rows := Rows(a, b), enabled := true, snapshot := {0, 1}, claimed := {0, 1}, load := Load(2, 0),
      nextWorker := 2,
           workers := map[0 := Worker(0, Lifecycle, keys, p), 1 := Worker(1, Lifecycle, more, q)])
  }

  // Queued, and read by fill.
  const BOTH_QUEUED := FRESH.(enabled := true, rows := Rows(Queued, Queued), snapshot := {0, 1})

  lemma BothQueued()
    ensures Run(FRESH, BOTH_RUN[..4]) == BOTH_QUEUED
  {
    var s1 := FRESH.(enabled := true);
    var s2 := s1.(rows := map[0 := Row(0, Lifecycle, None, Queued)]);
    var s3 := s1.(rows := Rows(Queued, Queued));
    RunPrefix(FRESH, BOTH_RUN, 0, FRESH, s1);
    RunPrefix(FRESH, BOTH_RUN, 1, s1, s2);
    RunPrefix(FRESH, BOTH_RUN, 2, s2, s3);
    RunPrefix(FRESH, BOTH_RUN, 3, s3, BOTH_QUEUED);
  }

  lemma BothClaimed()
    ensures Run(FRESH, BOTH_RUN[..6]) == Pair(Queued, Queued, [], [], Claiming, Claiming)
  {
    BothQueued();
    var s5 := BOTH_QUEUED.(claimed := {0}, load := Load(1, 0), nextWorker := 1,
                           workers := map[0 := Worker(0, Lifecycle, [], Claiming)]);
    RunPrefix(FRESH, BOTH_RUN, 4, BOTH_QUEUED, s5);
    RunPrefix(FRESH, BOTH_RUN, 5, s5, Pair(Queued, Queued, [], [], Claiming, Claiming));
  }

  // What one step of a goroutine is.
  lemma WorkIs(st: State, id: nat, choice: Choice)
    requires id in st.workers && st.workers[id].op in st.rows
    ensures var after, w := Do(st, Work(id, choice)), st.workers[id];
      match (w.pc, choice)
      case (Claiming, Writing(Saved)) =>
        st.rows[w.op].status == Queued ==> after == At(SetStatus(st, w.op, Running), id, Handling)
      case (Handling, Locking(keys)) => after == DoAwait(st, id, keys)
      case (Trying(released), Going) => after == DoTry(st, id, released)
      case (Refused(released, attempt), Going) =>
        released !in st.locks.closed ==> after == At(st, id, Deciding(released, attempt))
      case (Deciding(released, attempt), Going) => after == DoDecide(st, id, released, attempt)
      case (Holding(lease), Going) => after == DoAct(st, id, lease)
      case (Acting(lease), Returning(Succeeded)) =>
        after == At(st.(locks := LockTable.Released(st.locks, lease)), id, Finishing(Succeeded))
      case (Requeueing(released, settled, holds), Writing(Saved)) =>
        after == At(SetStatus(st, w.op, Queued), id, Requeued(released, settled, holds))
      case (Requeued(released, settled, holds), Going) => after == DoWait(st, id, released, settled, holds)
      case (Finishing(outcome), Writing(Saved)) => after == At(SetStatus(st, w.op, Finished(outcome)), id, Leaving)
      case (Leaving, Going) => after == DoLeave(st, id)
      case _ => true
  {
    hide DoAwait, DoTry, DoDecide, DoAct, DoWait, DoLeave, LockTable.Released, SetStatus;
  }

  lemma BothRun()
    ensures Run(FRESH, BOTH_RUN) == Pair(Running, Running, [], [], Handling, Handling)
  {
    hide Do;
    BothClaimed();
    var s6, s7 := Pair(Queued, Queued, [], [], Claiming, Claiming), Pair(Running, Queued, [], [], Handling, Claiming);
    WorkIs(s6, 0, Writing(Saved));
    WorkIs(s7, 1, Writing(Saved));
    RunPrefix(FRESH, BOTH_RUN, 6, s6, s7);
    RunPrefix(FRESH, BOTH_RUN, 7, s7, Pair(Running, Running, [], [], Handling, Handling));
    assert BOTH_RUN[..8] == BOTH_RUN;
  }

  // A request outside the runner holds the key that both jobs lock.
  function Meeting(key: string): seq<Event> {
    [Outside(LockTable.Acquiring([key], false, false)), Work(0, Locking([key])), Work(1, Locking([key])),
     Work(0, Going), Work(1, Going), Work(0, Going), Work(1, Going), Work(0, Going), Work(1, Going),
     Work(0, Writing(Saved)), Work(1, Writing(Saved)), Work(0, Going), Work(1, Going)]
  }

  function OutsideLocked(key: string): LockTable.State {
    var k := LockKeys.Normalize(key);
    LockTable.EMPTY.(active := map[k := LockTable.Holder(0, false)], leases := map[0 := [k]], released := Some(1),
      next := 2)
  }

  function Met(key: string, a: Status, b: Status, p: Pc, q: Pc): State {
    Pair(a, b, [key], [key], p, q).(locks := OutsideLocked(key), outside := {0})
  }

  function JobLocked(key: string): LockTable.State {
    var k := LockKeys.Normalize(key);
    LockTable.EMPTY.(active := map[k := LockTable.Holder(1, false)], leases := map[1 := [k]], released := Some(0),
      next := 2)
  }

  lemma Taken(key: string)
    ensures LockTable.Attempted(LockTable.EMPTY.(released := Some(0), next := 1), [key], false, false)
            == (JobLocked(key), LockTable.Granted(1))
    ensures LockTable.Attempted(LockTable.EMPTY, [key], false, false)
            == (OutsideLocked(key).(released := None, next := 1), LockTable.Granted(0))
    ensures LockTable.Attempted(JobLocked(key), [key], false, false) == (JobLocked(key), LockTable.Conflicting)
    ensures LockTable.Attempted(OutsideLocked(key), [key], false, false) == (OutsideLocked(key), LockTable.Conflicting)
  {
    hide LockTable.Ordered, LockTable.Conflicts, LockTable.Take;
    OneKey(key, LockTable.Holder(1, false));
    OneKey(key, LockTable.Holder(0, false));
  }

  lemma BothLock(key: string)
    ensures var start := Pair(Running, Running, [], [], Handling, Handling);
      Run(start, Meeting(key)[..3]) == Met(key, Running, Running, Trying(1), Trying(1))
  {
    hide DoWork, DoTry, LockTable.Attempted;
    var es, start := Meeting(key), Pair(Running, Running, [], [], Handling, Handling);
    Taken(key);
    var s1 := start.(locks := OutsideLocked(key).(released := None, next := 1), outside := {0});
    assert Do(start, Outside(LockTable.Acquiring([key], false, false))) == s1;
    hide Do;
    RunPrefix(start, es, 0, start, s1);
    var s2 := Pair(Running, Running, [key], [], Trying(1), Handling).(locks := OutsideLocked(key), outside := {0});
    WorkIs(s1, 0, Locking([key]));
    RunPrefix(start, es, 1, s1, s2);
    WorkIs(s2, 1, Locking([key]));
    RunPrefix(start, es, 2, s2, Met(key, Running, Running, Trying(1), Trying(1)));
  }

  lemma BothTry(key: string)
    ensures var start := Pair(Running, Running, [], [], Handling, Handling);
      var refused := Refused(1, LockTable.Conflicting);
      Run(start, Meeting(key)[..5]) == Met(key, Running, Running, refused, refused)
  {
    hide Do, DoAwait, LockTable.Attempted;
    var es, start := Meeting(key), Pair(Running, Running, [], [], Handling, Handling);
    var refused := Refused(1, LockTable.Conflicting);
    Taken(key);
    BothLock(key);
    var s3, s4 := Met(key, Running, Running, Trying(1), Trying(1)), Met(key, Running, Running, refused, Trying(1));
    WorkIs(s3, 0, Going);
    RunPrefix(start, es, 3, s3, s4);
    WorkIs(s4, 1, Going);
    RunPrefix(start, es, 4, s4, Met(key, Running, Running, refused, refused));
  }

  lemma BothRefused(key: string)
    ensures var start := Pair(Running, Running, [], [], Handling, Handling);
      var met := Deciding(1, LockTable.Conflicting);
      Run(start, Meeting(key)[..7]) == Met(key, Running, Running, met, met)
  {
    hide Do, DoAwait, DoTry;
    var es, start := Meeting(key), Pair(Running, Running, [], [], Handling, Handling);
    var refused, met := Refused(1, LockTable.Conflicting), Deciding(1, LockTable.Conflicting);
    BothTry(key);
    var s5, s6 := Met(key, Running, Running, refused, refused), Met(key, Running, Running, met, refused);
    WorkIs(s5, 0, Going);
    RunPrefix(start, es, 5, s5, s6);
    WorkIs(s6, 1, Going);
    RunPrefix(start, es, 6, s6, Met(key, Running, Running, met, met));
  }

  lemma BothDecide(key: string)
    ensures var start := Pair(Running, Running, [], [], Handling, Handling);
      var wait := Requeueing(1, 0, true);
      Run(start, Meeting(key)[..9]) == Met(key, Running, Running, wait, wait).(settled := Some(0), nextSettled := 2)
  {
    hide Do, DoAwait, DoTry, LockTable.Ordered, LockTable.Conflicts;
    var es, start := Meeting(key), Pair(Running, Running, [], [], Handling, Handling);
    var met, wait := Deciding(1, LockTable.Conflicting), Requeueing(1, 0, true);
    BothRefused(key);
    var s7 := Met(key, Running, Running, met, met);
    var s8 := Met(key, Running, Running, wait, met).(settled := Some(0), nextSettled := 1);
    assert 1 in s7.claimed && 0 in s8.claimed;
    WorkIs(s7, 0, Going);
    RunPrefix(start, es, 7, s7, s8);
    WorkIs(s8, 1, Going);
    RunPrefix(start, es, 8, s8, Met(key, Running, Running, wait, wait).(settled := Some(0), nextSettled := 2));
  }

  lemma BothRequeue(key: string)
    ensures var start := Pair(Running, Running, [], [], Handling, Handling);
      var saved := Requeued(1, 0, true);
      Run(start, Meeting(key)[..11]) == Met(key, Queued, Queued, saved, saved).(settled := Some(0), nextSettled := 2)
  {
    hide Do, DoAwait, DoTry, DoDecide, DoWait;
    var es, start := Meeting(key), Pair(Running, Running, [], [], Handling, Handling);
    var wait, saved := Requeueing(1, 0, true), Requeued(1, 0, true);
    BothDecide(key);
    var s9 := Met(key, Running, Running, wait, wait).(settled := Some(0), nextSettled := 2);
    var s10 := Met(key, Queued, Running, saved, wait).(settled := Some(0), nextSettled := 2);
    WorkIs(s9, 0, Writing(Saved));
    RunPrefix(start, es, 9, s9, s10);
    WorkIs(s10, 1, Writing(Saved));
    RunPrefix(start, es, 10, s10, Met(key, Queued, Queued, saved, saved).(settled := Some(0), nextSettled := 2));
  }

  lemma BothWait(key: string)
    ensures var start := Pair(Running, Running, [], [], Handling, Handling);
      var end := Met(key, Queued, Queued, Yielding(1, 0), Yielding(1, 0));
      Run(start, Meeting(key)) == end.(settled := Some(0), nextSettled := 2, yielded := {0, 1})
  {
    hide Do, DoAwait, DoTry, DoDecide;
    var es, start := Meeting(key), Pair(Running, Running, [], [], Handling, Handling);
    var saved, held := Requeued(1, 0, true), Yielding(1, 0);
    BothRequeue(key);
    var s11 := Met(key, Queued, Queued, saved, saved).(settled := Some(0), nextSettled := 2);
    var s12 := Met(key, Queued, Queued, held, saved).(settled := Some(0), nextSettled := 2, yielded := {0});
    WorkIs(s11, 0, Going);
    RunPrefix(start, es, 11, s11, s12);
    WorkIs(s12, 1, Going);
    var s13 := Met(key, Queued, Queued, held, held).(settled := Some(0), nextSettled := 2, yielded := {0, 1});
    RunPrefix(start, es, 12, s12, s13);
    assert es[..13] == es;
  }

  /** A conflict with a request outside the runner that does not fail: two jobs
    * meet it at once, each takes the other for the holder, and both hold the
    * queue for it. */
  lemma OutsideHoldsTheQueue(key: string)
    ensures var st := Run(FRESH, BOTH_RUN + Meeting(key));
      && 0 in st.workers && st.workers[0].pc.Yielding? && OnlyOutside(st, 0)
      && 1 in st.workers && st.workers[1].pc.Yielding? && OnlyOutside(st, 1)
  {
    hide Run, Do, LockTable.Ordered, LockTable.Conflicts;
    BothRun();
    BothWait(key);
    RunTwice(FRESH, BOTH_RUN, Meeting(key));
    OneKey(key, LockTable.Holder(0, false));
  }

  // Job 0 holds the key that job 1 locks, and ends before job 1 decides.
  function Passing(key: string): seq<Event> {
    [Work(0, Locking([key])), Work(1, Locking([key])), Work(0, Going), Work(0, Going), Work(1, Going), Work(1, Going),
     Work(0, Returning(Succeeded)), Work(0, Writing(Saved)), Work(0, Going), Work(1, Going)]
  }

  const FREED := LockTable.EMPTY.(closed := {0}, next := 2)

  lemma EachLocks(key: string)
    ensures var start := Pair(Running, Running, [], [], Handling, Handling);
      var end := Pair(Running, Running, [key], [key], Trying(0), Trying(0));
      Run(start, Passing(key)[..2]) == end.(locks := LockTable.EMPTY.(released := Some(0), next := 1))
  {
    hide Do, DoTry;
    var es, start := Passing(key), Pair(Running, Running, [], [], Handling, Handling);
    var taken := LockTable.EMPTY.(released := Some(0), next := 1);
    var s1 := Pair(Running, Running, [key], [], Trying(0), Handling).(locks := taken);
    WorkIs(start, 0, Locking([key]));
    RunPrefix(start, es, 0, start, s1);
    WorkIs(s1, 1, Locking([key]));
    RunPrefix(start, es, 1, s1, Pair(Running, Running, [key], [key], Trying(0), Trying(0)).(locks := taken));
  }

  // Job 0 runs its action while job 1 is at q.
  function Acts(key: string, q: Pc): State {
    Pair(Running, Running, [key], [key], Acting(1), q).(locks := JobLocked(key), started := multiset{0})
  }

  lemma OneHolds(key: string)
    ensures var start := Pair(Running, Running, [], [], Handling, Handling);
      Run(start, Passing(key)[..3]) ==
        Pair(Running, Running, [key], [key], Holding(1), Trying(0)).(locks := JobLocked(key))
  {
    hide Do, DoAwait, LockTable.Attempted;
    var es, start := Passing(key), Pair(Running, Running, [], [], Handling, Handling);
    Taken(key);
    EachLocks(key);
    var s2 := Pair(Running, Running, [key], [key], Trying(0), Trying(0));
    s2 := s2.(locks := LockTable.EMPTY.(released := Some(0), next := 1));
    WorkIs(s2, 0, Going);
    var s3 := Pair(Running, Running, [key], [key], Holding(1), Trying(0)).(locks := JobLocked(key));
    RunPrefix(start, es, 2, s2, s3);
  }

  lemma OneActs(key: string)
    ensures Run(Pair(Running, Running, [], [], Handling, Handling), Passing(key)[..4]) == Acts(key, Trying(0))
  {
    hide Do, DoAwait, DoTry, JobLocked;
    var es, start := Passing(key), Pair(Running, Running, [], [], Handling, Handling);
    OneHolds(key);
    var s3 := Pair(Running, Running, [key], [key], Holding(1), Trying(0)).(locks := JobLocked(key));
    WorkIs(s3, 0, Going);
    RunPrefix(start, es, 3, s3, Acts(key, Trying(0)));
  }

  lemma OtherRefused(key: string)
    ensures var start := Pair(Running, Running, [], [], Handling, Handling);
      Run(start, Passing(key)[..6]) == Acts(key, Deciding(0, LockTable.Conflicting))
  {
    hide Do, DoAwait, LockTable.Attempted;
    var es, start := Passing(key), Pair(Running, Running, [], [], Handling, Handling);
    var refused, met := Refused(0, LockTable.Conflicting), Deciding(0, LockTable.Conflicting);
    Taken(key);
    OneActs(key);
    WorkIs(Acts(key, Trying(0)), 1, Going);
    RunPrefix(start, es, 4, Acts(key, Trying(0)), Acts(key, refused));
    WorkIs(Acts(key, refused), 1, Going);
    RunPrefix(start, es, 5, Acts(key, refused), Acts(key, met));
  }

  lemma OneReturns(key: string)
    ensures var start := Pair(Running, Running, [], [], Handling, Handling);
      var end := Pair(Running, Running, [key], [key], Finishing(Succeeded), Deciding(0, LockTable.Conflicting));
      Run(start, Passing(key)[..7]) == end.(locks := FREED, started := multiset{0})
  {
    hide Do, DoAwait, DoTry;
    var es, start := Passing(key), Pair(Running, Running, [], [], Handling, Handling);
    var met := Deciding(0, LockTable.Conflicting);
    OtherRefused(key);
    var s7 := Pair(Running, Running, [key], [key], Finishing(Succeeded), met).(locks := FREED, started := multiset{0});
    assert LockTable.Released(JobLocked(key), 1) == FREED;
    WorkIs(Acts(key, met), 0, Returning(Succeeded));
    RunPrefix(start, es, 6, Acts(key, met), s7);
  }

  // Job 1 alone.
  function Last(key: string, q: Pc): State {
    Pair(Finished(Succeeded), Running, [key], [key], Leaving, q)
    .(workers := map[1 := Worker(1, Lifecycle, [key], q)], claimed := {1}, load := Load(1, 0), locks := FREED,
      started := multiset{0})
  }

  lemma OneLeaves(key: string)
    ensures var start := Pair(Running, Running, [], [], Handling, Handling);
      Run(start, Passing(key)) == Last(key, Finishing(Failed)).(settled := Some(0), nextSettled := 1)
  {
    hide Do, DoAwait, DoTry, LockTable.Ordered, LockTable.Conflicts;
    var es, start := Passing(key), Pair(Running, Running, [], [], Handling, Handling);
    var met := Deciding(0, LockTable.Conflicting);
    OneReturns(key);
    var s7 := Pair(Running, Running, [key], [key], Finishing(Succeeded), met).(locks := FREED, started := multiset{0});
    var s8 := Pair(Finished(Succeeded), Running, [key], [key], Leaving, met).(locks := FREED, started := multiset{0});
    WorkIs(s7, 0, Writing(Saved));
    RunPrefix(start, es, 7, s7, s8);
    WorkIs(s8, 0, Going);
    assert s8.workers - {0} == Last(key, met).workers;
    RunPrefix(start, es, 8, s8, Last(key, met));
    WorkIs(Last(key, met), 1, Going);
    RunPrefix(start, es, 9, Last(key, met), Last(key, Finishing(Failed)).(settled := Some(0), nextSettled := 1));
    assert es[..10] == es;
  }

  /** A conflict with another job that fails: the job that held the keys ends
    * between the refusal and the decision, and no request outside the runner is
    * involved at all. */
  lemma JobConflictCanFail(key: string)
    ensures var events := BOTH_RUN + Passing(key);
      var st := Run(FRESH, events);
      && (forall e :: e in events ==> !e.Outside?) && st.outside == {}
      && 1 in st.workers && st.workers[1].pc == Finishing(Failed) && InTheWay(st, 1) == {}
  {
    hide Run, Do, LockTable.Ordered;
    BothRun();
    OneLeaves(key);
    RunTwice(FRESH, BOTH_RUN, Passing(key));
  }
}
