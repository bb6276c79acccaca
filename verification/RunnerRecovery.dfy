/** What becomes of operations that are saved as running. */
module RunnerRecovery {

  import opened Wrappers
  import LockTable
  import opened Runner

  predicate Idle(pc: Pc) {
    pc.Claiming? || pc.Leaving?
  }

  /** The runner is on and has recovered the operation or never had to, its row
    * says running, and no goroutine is at work on it. */
  ghost predicate Adrift(st: State, op: nat) {
    && st.enabled && op in st.rows && st.rows[op].status == Running && op !in st.recovering
    && forall id :: id in st.workers && st.workers[id].op == op ==> Idle(st.workers[id].pc)
  }

  /** A worker of the operation gives up a write, or its claim is saved although it
    * is reported failed. */
  predicate Abandons(st: State, e: Event, op: nat) {
    && e.Work? && e.worker in st.workers && st.workers[e.worker].op == op
    && (e.choice == Writing(GivenUp) || (e.choice == Writing(Unheard) && st.workers[e.worker].pc.Claiming?))
  }

  // The runner starts.
  predicate Begins(st: State, e: Event) {
    e.Start? && !st.enabled && st.workers == map[]
  }

  lemma OwnAdrift(st: State, id: nat, choice: Choice, op: nat)
    requires Inv(st) && id in st.workers && st.workers[id].op == op
    requires Adrift(DoWork(st, id, choice), op)
    ensures Adrift(st, op) || Abandons(st, Work(id, choice), op)
  {
    hide LockTable.Attempted, LockTable.NextReleased, LockTable.Released, Unique, RowsOk, AllWork, RecoveringOk, Wakes;
    assert WorkerOk(st, id);
    assert Distinct(st.workers);
    var after := DoWork(st, id, choice);
    assert id in after.workers ==> Idle(after.workers[id].pc);
    assert st.rows[op].status == Running || (st.workers[id].pc.Claiming? && choice == Writing(Unheard));
    assert Idle(st.workers[id].pc) || choice == Writing(GivenUp);
    forall other | other in st.workers && st.workers[other].op == op
      ensures other == id
    {
    }
  }

  lemma OtherAdrift(st: State, after: State, id: nat, status: Status, pc: Pc, acted: bool, op: nat)
    requires id in st.workers && st.workers[id].op in st.rows && st.workers[id].op != op
    requires Same(after, Moved(st, id, status, pc, acted)) && after.enabled == st.enabled
    requires Adrift(after, op)
    ensures Adrift(st, op)
  {
    forall other | other in st.workers && st.workers[other].op == op
      ensures Idle(st.workers[other].pc)
    {
      assert after.workers[other].(keys := []) == Moved(st, id, status, pc, acted).workers[other].(keys := []);
      assert after.workers[other].pc == st.workers[other].pc;
    }
  }

  lemma WorkEnabled(st: State, id: nat, choice: Choice)
    ensures DoWork(st, id, choice).enabled == st.enabled
  {
    hide LockTable.Attempted, LockTable.NextReleased, LockTable.Released, Wakes;
  }

  lemma LeaveAdrift(st: State, id: nat, op: nat)
    requires id in st.workers && Adrift(DoLeave(st, id), op) && st.workers[id].op != op
    ensures Adrift(st, op)
  {
    forall other | other in st.workers && st.workers[other].op == op
      ensures Idle(st.workers[other].pc)
    {
      assert other in DoLeave(st, id).workers;
    }
  }

  lemma WorkAdrift(st: State, id: nat, choice: Choice, op: nat)
    requires Inv(st) && Adrift(DoWork(st, id, choice), op)
    ensures Adrift(st, op) || Abandons(st, Work(id, choice), op)
  {
    hide DoWork, Unique, RowsOk, AllWork, Distinct, Knows, MoveOk, Moved, Same, DoLeave, Adrift;
    if id !in st.workers {
      IdleWork(st, id, choice);
    } else {
      assert WorkerOk(st, id);
      if st.workers[id].op == op {
        OwnAdrift(st, id, choice, op);
      } else if st.workers[id].pc.Leaving? && choice.Going? {
        LeavingWork(st, id);
        LeaveAdrift(st, id, op);
      } else {
        WorkEnabled(st, id, choice);
        var status, pc, acted := WorkMoves(st, id, choice);
        OtherAdrift(st, DoWork(st, id, choice), id, status, pc, acted, op);
      }
    }
  }

  lemma StepAdrift(st: State, e: Event, op: nat)
    requires Inv(st) && Adrift(Do(st, e), op)
    ensures !Begins(st, e)
    ensures Adrift(st, op) || Abandons(st, e, op)
  {
    hide Unique, RowsOk, AllWork, Distinct, DoWork, Knows, LockTable.Attempted, LockTable.Released, LockTable.Apply;
    match e
    case Work(id, choice) => WorkAdrift(st, id, choice, op);
    case Claim(other) => ClaimAdrift(st, other, op);
    case _ =>
  }

  lemma ClaimAdrift(st: State, other: nat, op: nat)
    requires Inv(st) && Adrift(DoClaim(st, other), op)
    ensures Adrift(st, op)
  {
    hide Unique, RowsOk, Knows;
    var after := DoClaim(st, other);
    if after != st {
      forall id | id in st.workers && st.workers[id].op == op
        ensures Idle(st.workers[id].pc)
      {
        assert WorkerOk(st, id);
        assert id in after.workers && after.workers[id] == st.workers[id];
      }
    }
  }

  /** One event of the life the runner is in abandoned the operation. */
  ghost predicate Abandoned(events: seq<Event>, op: nat) {
    exists i :: 0 <= i < |events| && AbandonedAt(events, i, op)
  }

  ghost predicate AbandonedAt(events: seq<Event>, i: nat, op: nat)
    requires i < |events|
  {
    Abandons(Run(FRESH, events[..i]), events[i], op) &&
    forall k :: i < k < |events| ==> !Begins(Run(FRESH, events[..k]), events[k])
  }

  /** In every run, while the runner is on, an operation that is saved as running
    * and was not left to recovery has a goroutine at work, unless its write was
    * given up in this life or its claim was saved though reported failed. */
  lemma {:induction false} RunningIsWorkedOn(events: seq<Event>, op: nat)
    requires Adrift(Run(FRESH, events), op)
    ensures Abandoned(events, op)
  {
    hide Inv, Do, Abandons, Begins;
    if events == [] {
      assert false;
    } else {
      var before, e := events[..|events| - 1], events[|events| - 1];
      FreshIsOk();
      RunKeeps(FRESH, before);
      StepAdrift(Run(FRESH, before), e, op);
      if Abandons(Run(FRESH, before), e, op) {
        assert AbandonedAt(events, |before|, op);
      } else {
        RunningIsWorkedOn(before, op);
        var i :| 0 <= i < |before| && AbandonedAt(before, i, op);
        Later(before, e, i, op);
        assert before + [e] == events;
      }
    }
  }

  lemma Later(before: seq<Event>, e: Event, i: nat, op: nat)
    requires i < |before| && AbandonedAt(before, i, op) && !Begins(Run(FRESH, before), e)
    ensures AbandonedAt(before + [e], i, op)
  {
    hide Abandons, Begins, Run;
    var events := before + [e];
    assert events[..i] == before[..i] && events[i] == before[i];
    forall k | i < k < |events|
      ensures !Begins(Run(FRESH, events[..k]), events[k])
    {
      assert events[..k] == before[..k];
    }
  }
  // A claim that is saved but reported failed, then tried again.
  function LostClaim(id: nat): seq<Event> {
    [Work(id, Writing(Unheard)), Work(id, Writing(Saved)), Work(id, Going)]
  }

  lemma RunThree(st: State, a: Event, b: Event, c: Event)
    ensures Run(st, [a, b, c]) == Do(Do(Do(st, a), b), c)
  {
    hide Do;
    assert [a, b, c][..2] == [a, b] && [a, b][..1] == [a] && [a][..0] == [];
    assert Run(st, [a, b, c]) == Do(Run(st, [a, b]), c);
    assert Run(st, [a, b]) == Do(Run(st, [a]), b);
    assert Run(st, [a]) == Do(Run(st, []), a);
  }

  /** Where a claim is saved but reported failed the retry takes the row for
    * another's, and the operation is left running with no goroutine; where it is
    * heard, the goroutine goes on. */
  lemma UnheardClaimIsLost(st: State, id: nat)
    requires Inv(st) && st.enabled && id in st.workers && st.workers[id].pc.Claiming?
    requires st.rows[st.workers[id].op].status == Queued
    ensures var op := st.workers[id].op;
      && Adrift(Run(st, LostClaim(id)), op) && !Works(Run(st, LostClaim(id)).workers, op)
      && Run(st, LostClaim(id)).rows == st.rows[op := st.rows[op].(status := Running)]
      && !Adrift(Do(st, Work(id, Writing(Saved))), op)
  {
    hide Unique, RowsOk, AllWork, Knows;
    var op := st.workers[id].op;
    assert WorkerOk(st, id) && op in st.rows;
    RunThree(st, Work(id, Writing(Unheard)), Work(id, Writing(Saved)), Work(id, Going));
    var after := Run(st, LostClaim(id));
    assert after.workers == st.workers - {id};
    assert op !in st.recovering;
    forall other | other in after.workers
      ensures after.workers[other].op != op
    {
    }
    var heard := Do(st, Work(id, Writing(Saved)));
    assert id in heard.workers && heard.workers[id].op == op && heard.workers[id].pc == Handling;
  }

  const CLAIMING := [Start, Enqueue(0, 0, Data, None), Read, Claim(0)]

  /** From the start, a run that leaves an operation so; no other operation of its
    * server is then taken until a restart. */
  lemma ClaimCanBeLost()
    ensures Adrift(Run(FRESH, CLAIMING + LostClaim(0)), 0)
    ensures forall op, lane, request ::
      var lost := Run(FRESH, CLAIMING + LostClaim(0));
      Do(lost, Enqueue(op, 0, lane, request)) == lost
  {
    hide Run, Adrift, Inv, DoWork, LostClaim;
    OneClaimed();
    FreshIsOk();
    RunKeeps(FRESH, CLAIMING);
    UnheardClaimIsLost(Run(FRESH, CLAIMING), 0);
    RunTwice(FRESH, CLAIMING, LostClaim(0));
    var lost := Run(FRESH, CLAIMING + LostClaim(0));
    assert lost.rows[0].server == 0 && Active(lost.rows[0]);
  }

  lemma OneClaimed()
    ensures var st := Run(FRESH, CLAIMING);
      && st.enabled && 0 in st.rows && st.rows[0] == Row(0, Data, None, Queued)
      && 0 in st.workers && st.workers[0] == Worker(0, Data, [], Claiming)
  {
    FourSteps();
    var begun := Do(FRESH, Start);
    var queued := Do(begun, Enqueue(0, 0, Data, None));
    var read := Do(queued, Read);
    assert 0 in queued.rows && 0 in read.snapshot;
  }

  lemma FourSteps()
    ensures Run(FRESH, CLAIMING) == Do(Do(Do(Do(FRESH, Start), Enqueue(0, 0, Data, None)), Read), Claim(0))
  {
    hide Do;
    assert CLAIMING[..3] == [Start, Enqueue(0, 0, Data, None), Read];
    RunThree(FRESH, Start, Enqueue(0, 0, Data, None), Read);
  }

  // What starts and stops the runner

  /** Recovery goes on only once an operation is saved as interrupted; any other
    * end of that write switches the runner off. */
  lemma RecoverGoesOn(st: State, op: nat, write: Write)
    requires op in st.recovering && op in st.rows
    ensures var after := Do(st, Recover(op, write));
      if write == Saved then
        after == st.(rows := st.rows[op := st.rows[op].(status := Finished(Interrupted))],
                     recovering := st.recovering - {op})
      else !after.enabled && after.recovering == {} && after.workers == st.workers
  {
  }

  /** Stop and a crash switch the runner off: nothing is read or claimed then, and
    * Stop wakes every job that waits in the queue. */
  lemma OffMeansOff(st: State, e: Event)
    requires e.Stop? || e.Crash?
    ensures var after := Do(st, e);
      && !after.enabled && after.rows == st.rows && after.started == st.started
      && Do(after, Read) == after && (forall op :: Do(after, Claim(op)) == after)
      && (e.Crash? ==> after.workers == map[] && after.locks.active == map[])
      && (e.Stop? ==> after.workers == st.workers && after.locks == st.locks)
      && forall released, settled :: Wakes(after, released, settled)
  {
  }

  /** A job leaves the waiting list exactly when its channel has closed. */
  lemma UnwaitIs(st: State, w: Waiter)
    requires w in st.waiters && w.op in st.waiting
    ensures var after := Do(st, Unwait(w));
      if w.released in st.locks.closed then
        w.op !in after.waiting && w !in after.waiters && after.waiting == st.waiting - {w.op}
      else after == st
  {
  }
}
