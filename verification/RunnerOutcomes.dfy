/** Where the saved outcome of an operation comes from. */
module RunnerOutcomes {

  import opened Wrappers
  import LockTable
  import opened Runner
  import opened RunnerLocks
  import opened RunnerDecisions

  predicate Returns(pc: Pc, choice: Choice, outcome: Outcome) {
    (pc.Handling? || pc.Acting?) && choice == Returning(outcome) && !outcome.Interrupted?
  }

  /** One step that settles the outcome of an operation: its handler or its action
    * returns it, its goroutine decides to fail, or recovery finds it running. */
  predicate Source(st: State, e: Event, op: nat, outcome: Outcome) {
    match e
    case Work(id, choice) =>
      && id in st.workers && st.workers[id].op == op
      && (Returns(st.workers[id].pc, choice, outcome) ||
          (choice.Going? && outcome == Failed && st.workers[id].pc.Deciding? && Fails(st, id)))
    case Recover(recovered, write) =>
      recovered == op && outcome == Interrupted && op in st.recovering && (write.Saved? || write.Unheard?)
    case _ => false
  }

  /** Some event of the run settled this outcome. */
  ghost predicate Settled(events: seq<Event>, op: nat, outcome: Outcome) {
    exists i :: 0 <= i < |events| && Source(Run(FRESH, events[..i]), events[i], op, outcome)
  }

  lemma SettledLater(events: seq<Event>, e: Event, op: nat, outcome: Outcome)
    requires Settled(events, op, outcome)
    ensures Settled(events + [e], op, outcome)
  {
    hide Source, Run;
    var i :| 0 <= i < |events| && Source(Run(FRESH, events[..i]), events[i], op, outcome);
    assert (events + [e])[..i] == events[..i] && (events + [e])[i] == events[i];
  }

  lemma SettledNow(events: seq<Event>, e: Event, op: nat, outcome: Outcome)
    requires Source(Run(FRESH, events), e, op, outcome)
    ensures Settled(events + [e], op, outcome)
  {
    hide Source, Run;
    var all, i := events + [e], |events|;
    assert all[..i] == events && all[i] == e;
  }

  // A goroutine that is about to save this outcome.
  predicate Saving(st: State, id: nat, op: nat, outcome: Outcome) {
    id in st.workers && st.workers[id].op == op && st.workers[id].pc == Finishing(outcome)
  }

  predicate Ended(st: State, op: nat, outcome: Outcome) {
    op in st.rows && st.rows[op].status == Finished(outcome)
  }

  // What one goroutine's step makes of outcomes.
  lemma WorkSaves(st: State, id: nat, choice: Choice, other: nat, op: nat, outcome: Outcome)
    requires Saving(DoWork(st, id, choice), other, op, outcome)
    ensures Saving(st, other, op, outcome) || Source(st, Work(id, choice), op, outcome)
  {
    hide LockTable.Attempted, LockTable.NextReleased, LockTable.Released, Wakes;
  }

  lemma WorkEnds(st: State, id: nat, choice: Choice, op: nat, outcome: Outcome)
    requires Ended(DoWork(st, id, choice), op, outcome)
    ensures Ended(st, op, outcome) || Saving(st, id, op, outcome)
  {
    hide LockTable.Attempted, LockTable.NextReleased, LockTable.Released, Wakes;
  }

  lemma StepSaves(st: State, e: Event, id: nat, op: nat, outcome: Outcome)
    requires Saving(Do(st, e), id, op, outcome)
    ensures Saving(st, id, op, outcome) || Source(st, e, op, outcome)
  {
    hide DoWork, Source;
    if e.Work? {
      WorkSaves(st, e.worker, e.choice, id, op, outcome);
    }
  }

  lemma StepEnds(st: State, e: Event, op: nat, outcome: Outcome) returns (id: nat)
    requires Ended(Do(st, e), op, outcome)
    ensures Ended(st, op, outcome) || Saving(st, id, op, outcome) || Source(st, e, op, outcome)
  {
    hide DoWork;
    id := 0;
    if e.Work? {
      WorkEnds(st, e.worker, e.choice, op, outcome);
      id := e.worker;
    }
  }

  // Every outcome that is saved, or about to be, was settled.
  ghost predicate AllSettled(events: seq<Event>) {
    && (forall op, outcome :: Ended(Run(FRESH, events), op, outcome) ==> Settled(events, op, outcome))
    && (forall id, op, outcome :: Saving(Run(FRESH, events), id, op, outcome) ==> Settled(events, op, outcome))
  }

  lemma StepSettled(events: seq<Event>, e: Event)
    requires AllSettled(events)
    ensures AllSettled(events + [e])
  {
    hide Run, Do, Source, Ended, Saving, Settled;
    var st, after := Run(FRESH, events), Run(FRESH, events + [e]);
    assert after == Do(st, e) by { RunLast(events, e); }
    forall op, outcome | Ended(after, op, outcome)
      ensures Settled(events + [e], op, outcome)
    {
      var id := StepEnds(st, e, op, outcome);
      if Source(st, e, op, outcome) {
        SettledNow(events, e, op, outcome);
      } else {
        SettledLater(events, e, op, outcome);
      }
    }
    forall id, op, outcome | Saving(after, id, op, outcome)
      ensures Settled(events + [e], op, outcome)
    {
      StepSaves(st, e, id, op, outcome);
      if Source(st, e, op, outcome) {
        SettledNow(events, e, op, outcome);
      } else {
        SettledLater(events, e, op, outcome);
      }
    }
  }

  lemma RunLast(events: seq<Event>, e: Event)
    ensures Run(FRESH, events + [e]) == Do(Run(FRESH, events), e)
  {
    hide Do;
    assert (events + [e])[..|events|] == events;
  }

  lemma {:induction false} RunSettled(events: seq<Event>)
    ensures AllSettled(events)
  {
    hide Do, Source, Settled;
    if events != [] {
      var before, e := events[..|events| - 1], events[|events| - 1];
      RunSettled(before);
      StepSettled(before, e);
      assert before + [e] == events;
    }
  }

  /** In every run, the outcome saved for an operation is one that its handler or
    * its action returned, or that it failed by its own decision, or that recovery
    * found it interrupted. */
  lemma OutcomeIsSettled(events: seq<Event>, op: nat, outcome: Outcome)
    requires op in Run(FRESH, events).rows && Run(FRESH, events).rows[op].status == Finished(outcome)
    ensures exists i :: 0 <= i < |events| && Source(Run(FRESH, events[..i]), events[i], op, outcome)
  {
    hide Run, Source;
    RunSettled(events);
    assert Ended(Run(FRESH, events), op, outcome);
    assert Settled(events, op, outcome);
  }

  // What was returned is what is saved

  /** The row still says running, and whoever holds the operation can only save
    * this outcome or leave. */
  ghost predicate Owes(st: State, op: nat, outcome: Outcome) {
    && op in st.rows && st.rows[op].status == Running
    && forall id :: id in st.workers && st.workers[id].op == op ==> OnlySaves(st.workers[id].pc, outcome)
  }

  predicate OnlySaves(pc: Pc, outcome: Outcome) {
    pc.Claiming? || pc == Finishing(outcome) || pc.Leaving?
  }

  predicate Paid(st: State, op: nat, outcome: Outcome) {
    op in st.rows && (st.rows[op].status == Finished(outcome) || st.rows[op].status == Finished(Interrupted))
  }

  lemma SettlingOwes(st: State, id: nat, choice: Choice, op: nat, outcome: Outcome)
    requires Inv(st) && Source(st, Work(id, choice), op, outcome)
    ensures Owes(DoWork(st, id, choice), op, outcome)
  {
    hide LockTable.Attempted, LockTable.NextReleased, LockTable.Released, Unique, RowsOk, AllWork, RecoveringOk, Wakes;
    assert WorkerOk(st, id);
  }

  lemma OwnStepOwes(st: State, id: nat, choice: Choice, op: nat, outcome: Outcome)
    requires Owes(st, op, outcome) && Distinct(st.workers) && id in st.workers && st.workers[id].op == op
    ensures Owes(DoWork(st, id, choice), op, outcome) || Paid(DoWork(st, id, choice), op, outcome)
  {
    hide LockTable.Attempted, LockTable.NextReleased, LockTable.Released, Wakes;
    hide DoDecide, DoAct, DoWait, DoTry, DoAwait;
  }

  lemma OtherStepOwes(st: State, after: State, id: nat, status: Status, pc: Pc, acted: bool, op: nat, outcome: Outcome)
    requires Owes(st, op, outcome) && id in st.workers && st.workers[id].op in st.rows && st.workers[id].op != op
    requires Same(after, Moved(st, id, status, pc, acted))
    ensures Owes(after, op, outcome)
  {
    forall other | other in after.workers && after.workers[other].op == op
      ensures OnlySaves(after.workers[other].pc, outcome)
    {
      assert after.workers[other].(keys := []) == Moved(st, id, status, pc, acted).workers[other].(keys := []);
      assert after.workers[other].pc == Moved(st, id, status, pc, acted).workers[other].pc;
    }
  }

  lemma LeaveOwes(st: State, id: nat, op: nat, outcome: Outcome)
    requires Owes(st, op, outcome) && id in st.workers
    ensures Owes(DoLeave(st, id), op, outcome)
  {
  }

  lemma WorkOwes(st: State, id: nat, choice: Choice, op: nat, outcome: Outcome)
    requires Inv(st) && Owes(st, op, outcome)
    ensures Owes(DoWork(st, id, choice), op, outcome) || Paid(DoWork(st, id, choice), op, outcome)
  {
    hide DoWork, Unique, RowsOk, AllWork, Distinct, Knows, MoveOk, Moved, Same, DoLeave, Owes, Paid;
    if id !in st.workers {
      IdleWork(st, id, choice);
    } else {
      assert WorkerOk(st, id);
      if st.workers[id].op == op {
        OwnStepOwes(st, id, choice, op, outcome);
      } else if st.workers[id].pc.Leaving? && choice.Going? {
        LeavingWork(st, id);
        LeaveOwes(st, id, op, outcome);
      } else {
        var status, pc, acted := WorkMoves(st, id, choice);
        OtherStepOwes(st, DoWork(st, id, choice), id, status, pc, acted, op, outcome);
      }
    }
  }

  lemma StepOwes(st: State, e: Event, op: nat, outcome: Outcome)
    requires Inv(st) && Owes(st, op, outcome)
    ensures Owes(Do(st, e), op, outcome) || Paid(Do(st, e), op, outcome)
  {
    hide Unique, RowsOk, AllWork, Distinct, DoWork, Knows;
    match e
    case Work(id, choice) => WorkOwes(st, id, choice, op, outcome);
    case _ =>
  }

  lemma {:induction false} RunOwes(st: State, events: seq<Event>, op: nat, outcome: Outcome)
    requires Inv(st) && Owes(st, op, outcome)
    ensures Owes(Run(st, events), op, outcome) || Paid(Run(st, events), op, outcome)
  {
    hide Inv, Do, Owes;
    if events != [] {
      var before, e := events[..|events| - 1], events[|events| - 1];
      RunOwes(st, before, op, outcome);
      RunKeeps(st, before);
      if Owes(Run(st, before), op, outcome) {
        StepOwes(Run(st, before), e, op, outcome);
      } else {
        StepKeepsFinished(Run(st, before), e, op);
      }
    }
  }

  /** Once a handler or an action returned an outcome, or its job decided to fail,
    * no continuation saves another one: the row is still running, holds that
    * outcome, or was found interrupted after a crash. */
  lemma SettledIsSaved(events: seq<Event>, id: nat, choice: Choice, more: seq<Event>, op: nat, outcome: Outcome)
    requires Source(Run(FRESH, events), Work(id, choice), op, outcome)
    ensures var after := Run(FRESH, events + [Work(id, choice)] + more);
      op in after.rows && (after.rows[op].status == Running || after.rows[op].status == Finished(outcome)
                           || after.rows[op].status == Finished(Interrupted))
  {
    hide Inv, Run, DoWork, Source;
    var st := Run(FRESH, events);
    FreshIsOk();
    RunKeeps(FRESH, events);
    SettlingOwes(st, id, choice, op, outcome);
    StepKeeps(st, Work(id, choice));
    RunLast(events, Work(id, choice));
    RunTwice(FRESH, events + [Work(id, choice)], more);
    RunOwes(Do(st, Work(id, choice)), more, op, outcome);
  }
}
