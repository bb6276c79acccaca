/** No worker goroutine gets stuck. */
module RunnerProgress {

  import opened Wrappers
  import LockTable
  import opened Runner
  import opened RunnerLocks

  // What happens next to a goroutine whose writes succeed and whose action ends.
  function NextChoice(pc: Pc): Choice {
    match pc
    case Claiming => Writing(Saved)
    case Requeueing(_, _, _) => Writing(Saved)
    case Finishing(_) => Writing(Saved)
    case Handling => Returning(Succeeded)
    case Acting(_) => Returning(Succeeded)
    case _ => Going
  }

  // How many steps it is from its end. A refused job tries again if its channel
  // has closed since.
  function Rank(st: State, pc: Pc): nat {
    match pc
    case Claiming => 12
    case Trying(released) => if released in st.locks.closed then 11 else 9
    case Refused(released, _) => if released in st.locks.closed then 10 else 8
    case Deciding(_, _) => 7
    case Holding(_) => 7
    case Requeueing(_, _, _) => 6
    case Acting(_) => 5
    case Requeued(_, _, _) => 5
    case Handling => 4
    case Finishing(_) => 3
    case Yielding(_, _) => 2
    case Leaving => 1
  }

  /** A job that waits in the queue for a release, for another job's end or for
    * the runner's stop, none of which came. */
  predicate Parked(st: State, id: nat) {
    id in st.workers &&
    match st.workers[id].pc
    case Yielding(released, settled) => !Wakes(st, released, settled)
    case _ => false
  }

  // A step brings it nearer to its end.
  ghost predicate Nearer(st: State, id: nat, after: State)
    requires id in st.workers
  {
    id in after.workers ==> Rank(after, after.workers[id].pc) < Rank(st, st.workers[id].pc)
  }

  lemma OneStep(st: State, id: nat)
    requires LockTable.Valid(st.locks) && id in st.workers && st.workers[id].op in st.rows
    requires !st.workers[id].pc.Yielding?
    ensures Nearer(st, id, Do(st, Work(id, NextChoice(st.workers[id].pc))))
  {
    hide Nearer, Do, NextChoice, LockTable.Valid;
    var pc := st.workers[id].pc;
    if pc.Trying? || pc.Refused? {
      TryStep(st, id);
    } else if pc.Claiming? || pc.Requeueing? || pc.Finishing? {
      WriteStep(st, id);
    } else {
      GoStep(st, id);
    }
  }

  lemma TryStep(st: State, id: nat)
    requires LockTable.Valid(st.locks) && id in st.workers && st.workers[id].op in st.rows
    requires st.workers[id].pc.Trying? || st.workers[id].pc.Refused?
    ensures Nearer(st, id, Do(st, Work(id, Going)))
    ensures NextChoice(st.workers[id].pc) == Going
  {
    hide LockTable.Attempted, LockTable.Released, LockTable.NextReleased, LockTable.Valid;
    AttemptCloses(st.locks, st.workers[id].keys);
    OpenChannel(st.locks);
  }

  lemma WriteStep(st: State, id: nat)
    requires id in st.workers && st.workers[id].op in st.rows
    requires st.workers[id].pc.Claiming? || st.workers[id].pc.Requeueing? || st.workers[id].pc.Finishing?
    ensures Nearer(st, id, Do(st, Work(id, NextChoice(st.workers[id].pc))))
  {
  }

  lemma GoStep(st: State, id: nat)
    requires id in st.workers && st.workers[id].op in st.rows
    requires var pc := st.workers[id].pc;
             pc.Handling? || pc.Acting? || pc.Deciding? || pc.Holding? || pc.Requeued? || pc.Leaving?
    ensures Nearer(st, id, Do(st, Work(id, NextChoice(st.workers[id].pc))))
  {
    hide LockTable.Released;
  }

  // A channel that is handed out is open, and an attempt closes none.
  lemma OpenChannel(locks: LockTable.State)
    requires LockTable.Valid(locks)
    ensures LockTable.NextReleased(locks).1 !in LockTable.NextReleased(locks).0.closed
  {
  }

  lemma AttemptCloses(locks: LockTable.State, keys: seq<string>)
    ensures LockTable.Attempted(locks, keys, false, false).0.closed == locks.closed
  {
  }

  // Only the steps of one goroutine.
  predicate OnlyWorks(events: seq<Event>, id: nat) {
    forall e :: e in events ==> e.Work? && e.worker == id
  }

  predicate AtEnd(st: State, id: nat) {
    id !in st.workers || st.workers[id].pc.Yielding?
  }

  lemma {:induction false} StepsLeave(events: seq<Event>, id: nat) returns (more: seq<Event>)
    requires id in Run(FRESH, events).workers
    ensures OnlyWorks(more, id) && |more| <= Rank(Run(FRESH, events), Run(FRESH, events).workers[id].pc)
    ensures AtEnd(Run(FRESH, events + more), id)
    decreases Rank(Run(FRESH, events), Run(FRESH, events).workers[id].pc)
  {
    hide Do, Run, NextChoice, Owned, LoadOk, QueueOk;
    var st := Run(FRESH, events);
    more := [];
    if st.workers[id].pc.Yielding? {
      assert events + more == events;
    } else {
      var e := Work(id, NextChoice(st.workers[id].pc));
      RunOk(events);
      assert WorkerOk(st, id);
      OneStep(st, id);
      RunOne(events, e);
      if id !in Do(st, e).workers {
        RankBound(st, st.workers[id].pc);
        more := [e];
      } else {
        var rest := StepsLeave(events + [e], id);
        more := [e] + rest;
        assert events + more == events + [e] + rest;
      }
    }
  }

  lemma RunOne(events: seq<Event>, e: Event)
    ensures Run(FRESH, events + [e]) == Do(Run(FRESH, events), e)
  {
    hide Do;
    assert (events + [e])[..|events|] == events;
  }

  /** In every run, at most twelve steps of its own take a worker goroutine to its
    * end or to waiting in the queue, whatever it holds or is refused. */
  lemma WorkerLeaves(events: seq<Event>, id: nat) returns (more: seq<Event>)
    requires id in Run(FRESH, events).workers
    ensures OnlyWorks(more, id) && |more| <= 12 && AtEnd(Run(FRESH, events + more), id)
  {
    hide Run, Rank;
    more := StepsLeave(events, id);
    RankBound(Run(FRESH, events), Run(FRESH, events).workers[id].pc);
  }

  lemma RankBound(st: State, pc: Pc)
    ensures 1 <= Rank(st, pc) <= 12
  {
  }

  /** A job that waits in the queue goes on with the next release, the next end of
    * a job, or the stop of the runner, and with nothing else: it starts over if it
    * is still queued and the runner is on, and ends if not, or if its row cannot be
    * read. */
  lemma ParkedWakes(st: State, id: nat)
    requires id in st.workers && st.workers[id].op in st.rows && st.workers[id].pc.Yielding?
    ensures var pc := st.workers[id].pc;
      var after := Do(st, Work(id, Going));
      && (Parked(st, id) <==> pc.released !in st.locks.closed && pc.settled !in st.ended && st.enabled)
      && (Parked(st, id) ==> after == st == Do(st, Work(id, Writing(GivenUp))))
      && (!Parked(st, id) ==> Do(st, Work(id, Writing(GivenUp))) ==
                              st.(workers := st.workers[id := st.workers[id].(pc := Leaving)]))
      && (!Parked(st, id) ==>
            id in after.workers &&
            after.workers[id].pc == if st.enabled && st.rows[st.workers[id].op].status == Queued then Claiming
                                    else Leaving)
  {
  }

  /** Shutdown ends every write that is retried, and changes no row by that. */
  lemma ShutdownLeaves(st: State, id: nat)
    requires id in st.workers && st.workers[id].op in st.rows
    requires st.workers[id].pc.Claiming? || st.workers[id].pc.Requeueing? || st.workers[id].pc.Finishing?
    ensures var after := Do(st, Work(id, Writing(GivenUp)));
            after == st.(workers := st.workers[id := st.workers[id].(pc := Leaving)])
  {
  }

  /** A claim takes effect only on a row that is queued when it is written; any
    * other row stays as it is, and its job ends. */
  lemma ClaimIsGuarded(st: State, id: nat, write: Write)
    requires id in st.workers && st.workers[id].op in st.rows && st.workers[id].pc.Claiming?
    ensures var op, after := st.workers[id].op, Do(st, Work(id, Writing(write)));
      && op in after.rows && after.rows == st.rows[op := st.rows[op].(status := after.rows[op].status)]
      && (st.rows[op].status != Queued ==> after.rows == st.rows)
      && after.rows[op].status in {st.rows[op].status, Running}
      && (write == Saved ==>
            id in after.workers && after.rows[op].status != Queued &&
            after.workers[id].pc == if st.rows[op].status == Queued then Handling else Leaving)
  {
  }
}
