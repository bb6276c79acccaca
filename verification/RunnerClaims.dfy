/** When the runner starts new work. */
module RunnerClaims {

  import opened Wrappers
  import LockTable
  import opened Runner

  /** Queued rows are read only while the runner is on, has recovered everything,
    * no job holds the queue and a lane has room. */
  predicate MayRead(st: State) {
    && st.enabled && st.recovering == {} && st.yielded == {}
    && (st.load.lifecycle < 4 || st.load.data < 1)
  }

  predicate HasRoom(st: State, lane: Lane) {
    match lane
    case Lifecycle => st.load.lifecycle < 4
    case Data => st.load.data < 1
  }

  predicate QueuedIn(st: State, op: nat) {
    op in st.rows && st.rows[op].status == Queued
  }

  /** The snapshot of a run was read by one event of the life the runner is in. */
  ghost predicate ReadAt(events: seq<Event>, j: nat, op: nat) {
    && j < |events| && events[j].Read? && MayRead(Run(FRESH, events[..j])) && QueuedIn(Run(FRESH, events[..j]), op)
    && forall k :: j <= k < |events| ==> !events[k].Crash?
  }

  ghost predicate WasRead(events: seq<Event>, op: nat) {
    exists j: nat :: ReadAt(events, j, op)
  }

  lemma StepSnapshot(st: State, e: Event, op: nat)
    requires op in Do(st, e).snapshot
    ensures !e.Crash?
    ensures op in st.snapshot || (e.Read? && MayRead(st) && QueuedIn(st, op))
  {
    hide DoWork;
    match e
    case Work(id, choice) => WorkSnapshot(st, id, choice);
    case _ =>
  }

  lemma WorkSnapshot(st: State, id: nat, choice: Choice)
    ensures DoWork(st, id, choice).snapshot == st.snapshot
  {
  }

  lemma {:induction false} SnapshotWasRead(events: seq<Event>, op: nat)
    requires op in Run(FRESH, events).snapshot
    ensures WasRead(events, op)
  {
    hide Do, MayRead, QueuedIn;
    if events != [] {
      var before, e := events[..|events| - 1], events[|events| - 1];
      StepSnapshot(Run(FRESH, before), e, op);
      if op in Run(FRESH, before).snapshot {
        SnapshotWasRead(before, op);
        var j: nat :| ReadAt(before, j, op);
        assert events[..j] == before[..j];
        assert forall k :: j <= k < |before| ==> events[k] == before[k];
        assert ReadAt(events, j, op);
      } else {
        assert ReadAt(events, |before|, op);
      }
    }
  }

  /** In every run, new work is claimed only for a row that was queued at an earlier
    * read in the same life of the runner, when no job held the queue and nothing
    * was left to recover; and only while the runner is on, the lane has room and
    * the job is neither claimed nor waiting. Such a claim always succeeds. */
  lemma ClaimsAreRead(events: seq<Event>, op: nat)
    ensures var st := Run(FRESH, events);
      var after := Do(st, Claim(op));
      && (after != st <==> op in st.snapshot && op in st.rows && st.enabled && op !in st.claimed && op !in st.waiting
                           && HasRoom(st, st.rows[op].lane))
      && (after != st ==> WasRead(events, op) && after.claimed == st.claimed + {op} &&
                          st.nextWorker in after.workers && after.workers[st.nextWorker].op == op &&
                          after.workers[st.nextWorker].pc == Claiming)
  {
    hide Run, WasRead;
    var st := Run(FRESH, events);
    if op in st.snapshot {
      SnapshotWasRead(events, op);
    }
    if op !in st.claimed {
      assert op in st.claimed + {op};
    }
  }

  /** A read that may be done sees every queued row, and no other. */
  lemma ReadSees(st: State)
    ensures MayRead(st) ==> forall op :: op in Do(st, Read).snapshot <==> QueuedIn(st, op)
    ensures !MayRead(st) ==> Do(st, Read) == st
  {
  }
  /** A request adds an operation exactly if its key was never used and no
    * operation of its server is queued or running; else nothing changes. */
  lemma EnqueueAdds(st: State, op: nat, server: nat, lane: Lane, request: Option<string>)
    requires op !in st.rows
    ensures var after := Do(st, Enqueue(op, server, lane, request));
      && (op in after.rows || after == st)
      && (op in after.rows ==> after == st.(rows := st.rows[op := Row(server, lane, request, Queued)]))
      && (op in after.rows <==>
            forall other :: other in st.rows ==>
              (request.None? || st.rows[other].request != request) &&
              (st.rows[other].server == server ==> st.rows[other].status !in {Queued, Running}))
  {
    var row := Row(server, lane, request, Queued);
    forall other | other in st.rows && st.rows[other].server == server
      ensures Active(st.rows[other]) <==> st.rows[other].status in {Queued, Running}
    {
    }
    if Enqueued(st, op, row) == st {
      assert op !in Do(st, Enqueue(op, server, lane, request)).rows;
    }
  }
}
