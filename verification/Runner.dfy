/** The operation runner: any number of queued operations, worker goroutines,
  * requests outside the runner and process restarts, interleaved step by step. */
module Runner {

  import opened Wrappers
  import LockTable

  datatype Outcome = Succeeded | AlreadyCurrent | Failed | Interrupted

  datatype Status = Queued | Running | Finished(outcome: Outcome)

  datatype Lane = Lifecycle | Data

  /** A saved operation. Its lane and its request key never change. */
  datatype Row = Row(server: nat, lane: Lane, request: Option<string>, status: Status)

  // Where a worker goroutine is. `released` is the channel it took before its
  // last attempt at its locks, `settled` the one that closes when any job ends,
  // and a lease what it holds.
  datatype Pc =
    | Claiming
    | Handling
    | Trying(released: nat)
    | Refused(released: nat, attempt: LockTable.Attempt)
    | Deciding(released: nat, attempt: LockTable.Attempt)
    | Holding(lease: nat)
    | Acting(lease: nat)
    | Requeueing(released: nat, settled: nat, holdsQueue: bool)
    | Requeued(released: nat, settled: nat, holdsQueue: bool)
    | Yielding(released: nat, settled: nat)
    | Finishing(outcome: Outcome)
    | Leaving

  datatype Worker = Worker(op: nat, lane: Lane, keys: seq<string>, pc: Pc)

  // A goroutine that takes a job off the waiting list at the next release.
  datatype Waiter = Waiter(op: nat, released: nat, keys: seq<string>)

  datatype State = State(
    rows: map<nat, Row>,
    enabled: bool,
    recovering: set<nat>,
    snapshot: set<nat>,
    workers: map<nat, Worker>,
    claimed: set<nat>,
    yielded: set<nat>,
    waiting: set<nat>,
    waiters: set<Waiter>,
    load: Load,
    nextWorker: nat,
    // The channel that closes when any job ends, if anyone waits for it, and
    // those that are closed.
    settled: Option<nat>,
    ended: set<nat>,
    nextSettled: nat,
    locks: LockTable.State,
    // The leases that requests outside the runner hold.
    outside: set<nat>,
    // How often the action of each operation was started.
    started: multiset<nat>)

  datatype Load = Load(lifecycle: nat, data: nat)

  const IDLE := Load(0, 0)

  const FRESH := State(map[], false, {}, {}, map[], {}, {}, {}, {}, IDLE, 0, None, {}, 0, LockTable.EMPTY, {},
    multiset{})

  function Capacity(lane: Lane): nat {
    if lane.Data? then 1 else 4
  }

  // A database write may fail, and may have taken effect although it failed.
  datatype Write = Lost | Unheard | Saved | GivenUp

  datatype Choice =
    | Writing(write: Write)
    | Returning(outcome: Outcome)
    | Locking(keys: seq<string>)
    | Going

  datatype Event =
    | Enqueue(op: nat, server: nat, lane: Lane, request: Option<string>)
    | Read
    | Claim(op: nat)
    | Work(worker: nat, choice: Choice)
    | Unwait(waiter: Waiter)
    | Outside(event: LockTable.Event)
    | Stop
    | Crash
    | Start
    | Recover(op: nat, write: Write)

  predicate Active(row: Row) {
    !row.status.Finished?
  }

  predicate Holds(pc: Pc) {
    pc.Holding? || pc.Acting?
  }

  // Enqueue: a repeated request and a server with an active operation add no row.
  function Enqueued(st: State, op: nat, row: Row): State {
    if op in st.rows || (exists other :: other in st.rows && row.request.Some? && st.rows[other].request == row.request)
      || (exists other :: other in st.rows && st.rows[other].server == row.server && Active(st.rows[other]))
    then st
    else st.(rows := st.rows[op := row])
  }

  function LoadOf(load: Load, lane: Lane): nat {
    if lane.Data? then load.data else load.lifecycle
  }

  function AddLoad(load: Load, lane: Lane): Load {
    if lane.Data? then load.(data := load.data + 1) else load.(lifecycle := load.lifecycle + 1)
  }

  function Less(n: nat): nat {
    if n > 0 then n - 1 else 0
  }

  function DropLoad(load: Load, lane: Lane): Load {
    if lane.Data? then load.(data := Less(load.data)) else load.(lifecycle := Less(load.lifecycle))
  }

  // The first half of fill: the queued rows, which are stale once they are read.
  function DoRead(st: State): State {
    if !st.enabled || st.recovering != {} || st.yielded != {} ||
       (LoadOf(st.load, Lifecycle) >= Capacity(Lifecycle) && LoadOf(st.load, Data) >= Capacity(Data))
    then st
    else st.(snapshot := set op | op in st.rows && st.rows[op].status == Queued)
  }

  // The second half, for one row.
  function DoClaim(st: State, op: nat): State {
    if op !in st.snapshot || op !in st.rows || !st.enabled || op in st.claimed || op in st.waiting
      || LoadOf(st.load, st.rows[op].lane) >= Capacity(st.rows[op].lane)
    then st
    else
      var lane := st.rows[op].lane;
      st.(claimed := st.claimed + {op}, load := AddLoad(st.load, lane), nextWorker := st.nextWorker + 1,
          workers := st.workers[st.nextWorker := Worker(op, lane, [], Claiming)])
  }

  function SetStatus(st: State, op: nat, status: Status): State
    requires op in st.rows
  {
    st.(rows := st.rows[op := st.rows[op].(status := status)])
  }

  function At(st: State, id: nat, pc: Pc): State
    requires id in st.workers
  {
    st.(workers := st.workers[id := st.workers[id].(pc := pc)])
  }

  // A retried write of a status: it is in place at the latest when it is heard.
  function Persist(st: State, id: nat, write: Write, status: Status, next: Pc): State
    requires id in st.workers && st.workers[id].op in st.rows
  {
    match write
    case Lost => st
    case Unheard => SetStatus(st, st.workers[id].op, status)
    case Saved => At(SetStatus(st, st.workers[id].op, status), id, next)
    case GivenUp => At(st, id, Leaving)
  }

  /** The guarded claim: only a queued row becomes running. */
  function DoStart(st: State, id: nat, write: Write): State
    requires id in st.workers && st.workers[id].op in st.rows
  {
    if st.rows[st.workers[id].op].status == Queued then Persist(st, id, write, Running, Handling)
    else if write.Saved? || write.GivenUp? then At(st, id, Leaving)
    else st
  }

  // WithLocks: take the channel of the next release, then try.
  function DoAwait(st: State, id: nat, keys: seq<string>): State
    requires id in st.workers
  {
    var (locks, released) := LockTable.NextReleased(st.locks);
    st.(locks := locks, workers := st.workers[id := st.workers[id].(keys := keys, pc := Trying(released))])
  }

  function DoTry(st: State, id: nat, released: nat): State
    requires id in st.workers
  {
    var (locks, attempt) := LockTable.Attempted(st.locks, st.workers[id].keys, false, false);
    At(st.(locks := locks), id, if attempt.Granted? then Holding(attempt.id) else Refused(released, attempt))
  }

  function DoDecide(st: State, id: nat, released: nat, attempt: LockTable.Attempt): State
    requires id in st.workers
  {
    var op := st.workers[id].op;
    var otherActive := exists other :: other in st.claimed && other != op && other !in st.yielded;
    var settled := if st.settled.Some? then st.settled.value else st.nextSettled;
    var next := if op in st.claimed && attempt.Background? then Requeueing(released, settled, false)
                else if op in st.claimed && attempt.Conflicting? && otherActive then Requeueing(released, settled, true)
                else Finishing(Failed);
    At(st.(yielded := st.yielded - {op}, settled := Some(settled), nextSettled := st.nextSettled + 1), id, next)
  }

  function DoAct(st: State, id: nat, lease: nat): State
    requires id in st.workers
  {
    var op := st.workers[id].op;
    At(st.(yielded := st.yielded - {op}, started := st.started + multiset{op}), id, Acting(lease))
  }

  function DoWait(st: State, id: nat, released: nat, settled: nat, holdsQueue: bool): State
    requires id in st.workers
  {
    var w := st.workers[id];
    if holdsQueue then At(st.(yielded := st.yielded + {w.op}), id, Yielding(released, settled))
    else At(st.(waiting := st.waiting + {w.op}, waiters := st.waiters + {Waiter(w.op, released, w.keys)}), id, Leaving)
  }

  // Close the channel of those who wait for any job to end.
  function DoSettle(st: State): State {
    st.(settled := None, ended := st.ended + LockTable.Closing(st.settled))
  }

  // What a yielded job waits for.
  predicate Wakes(st: State, released: nat, settled: nat) {
    released in st.locks.closed || settled in st.ended || !st.enabled
  }

  function DoLeave(st: State, id: nat): State
    requires id in st.workers
  {
    var w := st.workers[id];
    DoSettle(st.(workers := st.workers - {id}, claimed := st.claimed - {w.op}, yielded := st.yielded - {w.op},
                 load := DropLoad(st.load, w.lane)))
  }

  /** One step of a worker goroutine. */
  function DoWork(st: State, id: nat, choice: Choice): State {
    if id !in st.workers || st.workers[id].op !in st.rows then st
    else
      var w := st.workers[id];
      match (w.pc, choice)
      case (Claiming, Writing(write)) => DoStart(st, id, write)
      case (Handling, Returning(outcome)) => if outcome.Interrupted? then st else At(st, id, Finishing(outcome))
      case (Handling, Locking(keys)) => DoAwait(st, id, keys)
      case (Trying(released), Going) => DoTry(st, id, released)
      case (Refused(released, attempt), Going) =>
        if released in st.locks.closed then DoAwait(st, id, w.keys) else At(st, id, Deciding(released, attempt))
      case (Deciding(released, attempt), Going) => DoDecide(st, id, released, attempt)
      case (Holding(lease), Going) => DoAct(st, id, lease)
      case (Acting(lease), Returning(outcome)) =>
        if outcome.Interrupted? then st
        else At(st.(locks := LockTable.Released(st.locks, lease)), id, Finishing(outcome))
      case (Requeueing(released, settled, holdsQueue), Writing(write)) =>
        Persist(st, id, write, Queued, Requeued(released, settled, holdsQueue))
      case (Requeued(released, settled, holdsQueue), Going) => DoWait(st, id, released, settled, holdsQueue)
      case (Yielding(released, settled), Going) =>
        if !Wakes(st, released, settled) then st
        else At(st, id, if st.enabled && st.rows[w.op].status == Queued then Claiming else Leaving)
      case (Yielding(released, settled), Writing(GivenUp)) =>
        if Wakes(st, released, settled) then At(st, id, Leaving) else st
      case (Finishing(outcome), Writing(write)) => Persist(st, id, write, Finished(outcome), Leaving)
      case (Leaving, Going) => DoLeave(st, id)
      case _ => st
  }

  function DoUnwait(st: State, waiter: Waiter): State {
    if waiter !in st.waiters || waiter.released !in st.locks.closed then st
    else st.(waiters := st.waiters - {waiter}, waiting := st.waiting - {waiter.op})
  }

  // Requests outside the runner use the locks too, but release only their own.
  function DoOutside(st: State, e: LockTable.Event): State {
    match e
    case Acquiring(keys, background, recovering) =>
      var (locks, attempt) := LockTable.Attempted(st.locks, keys, background, recovering);
      st.(locks := locks, outside := if attempt.Granted? then st.outside + {attempt.id} else st.outside)
    case Releasing(id) =>
      if id !in st.outside then st
      else st.(locks := LockTable.Released(st.locks, id), outside := st.outside - {id})
    case _ => st.(locks := LockTable.Apply(st.locks, e))
  }

  /** A crash ends every goroutine and empties the memory; the rows remain. */
  function DoCrash(st: State): State {
    st.(enabled := false, recovering := {}, snapshot := {}, workers := map[], claimed := {}, yielded := {},
        waiting := {},
        waiters := {}, load := IDLE, settled := None, locks := LockTable.EMPTY,
        outside := {})
  }

  // Start, once no worker is left. What it finds running was interrupted.
  function DoBegin(st: State): State {
    if st.enabled || st.workers != map[] then st
    else st.(enabled := true, recovering := (set op | op in st.rows && st.rows[op].status == Running), snapshot := {},
             claimed := {}, yielded := {}, waiting := {}, load := IDLE)
  }

  function DoRecover(st: State, op: nat, write: Write): State {
    if op !in st.recovering || op !in st.rows then st
    else
      var after := if write.Saved? || write.Unheard? then SetStatus(st, op, Finished(Interrupted)) else st;
      if write.Saved? then after.(recovering := st.recovering - {op}) else after.(enabled := false, recovering := {})
  }

  function Do(st: State, e: Event): State {
    match e
    case Enqueue(op, server, lane, request) => Enqueued(st, op, Row(server, lane, request, Queued))
    case Read => DoRead(st)
    case Claim(op) => DoClaim(st, op)
    case Work(id, choice) => DoWork(st, id, choice)
    case Unwait(waiter) => DoUnwait(st, waiter)
    case Outside(event) => DoOutside(st, event)
    case Stop => if st.enabled then DoSettle(st.(enabled := false)) else st
    case Crash => DoCrash(st)
    case Start => DoBegin(st)
    case Recover(op, write) => DoRecover(st, op, write)
  }

  function Run(st: State, events: seq<Event>): State {
    if events == [] then st else Do(Run(st, events[..|events| - 1]), events[|events| - 1])
  }

  lemma {:induction false} RunTwice(st: State, first: seq<Event>, second: seq<Event>)
    ensures Run(st, first + second) == Run(Run(st, first), second)
  {
    hide Do;
    if second == [] {
      assert first + second == first;
    } else {
      RunTwice(st, first, second[..|second| - 1]);
      assert (first + second)[..|first + second| - 1] == first + second[..|second| - 1];
    }
  }

  // Rows and actions

  // What a worker knows of its row and of its action.
  predicate Knows(pc: Pc, status: Status, started: nat) {
    match pc
    case Claiming => true
    case Acting(_) => status == Running && started == 1
    case Requeueing(_, _, _) => status.Running? || status.Queued?
    case Requeued(_, _, _) => status == Queued
    case Yielding(_, _) => status == Queued
    case Finishing(outcome) => status == Running || status == Finished(outcome)
    case Leaving => true
    case _ => status == Running && started == 0
  }

  // The status of an operation whose action was started is saved as running
  // or as finished.
  ghost predicate RowsOk(rows: map<nat, Row>, started: multiset<nat>) {
    && (forall op :: started[op] <= 1)
    && (forall op :: started[op] > 0 ==> op in rows && rows[op].status != Queued)
  }

  ghost predicate Unique(rows: map<nat, Row>) {
    && (forall a, b ::
          a in rows && b in rows && rows[a].server == rows[b].server && Active(rows[a]) && Active(rows[b]) ==> a == b)
    && (forall a, b :: a in rows && b in rows && rows[a].request.Some? && rows[a].request == rows[b].request ==> a == b)
  }

  ghost predicate WorkerOk(st: State, id: nat)
    requires id in st.workers
  {
    var w := st.workers[id];
    && id < st.nextWorker && w.op in st.rows && w.op in st.claimed && st.rows[w.op].lane == w.lane
    && Knows(w.pc, st.rows[w.op].status, st.started[w.op])
    && (w.pc.Requeueing? ==> st.started[w.op] == 0)
  }

  ghost predicate EachOk(st: State) {
    forall id :: id in st.workers ==> WorkerOk(st, id)
  }

  ghost predicate Distinct(workers: map<nat, Worker>) {
    forall a, b :: a in workers && b in workers && workers[a].op == workers[b].op ==> a == b
  }

  ghost predicate Works(workers: map<nat, Worker>, op: nat) {
    exists id :: id in workers && workers[id].op == op
  }

  ghost predicate AllWork(workers: map<nat, Worker>, claimed: set<nat>) {
    forall op :: op in claimed ==> Works(workers, op)
  }

  // Recovery runs alone.
  ghost predicate RecoveringOk(st: State) {
    && (forall op :: op in st.recovering ==> op in st.rows && st.rows[op].status == Running)
    && (st.recovering != {} ==> st.workers == map[] && st.snapshot == {})
  }

  ghost predicate Inv(st: State) {
    RowsOk(st.rows, st.started) && Unique(st.rows) && EachOk(st) && Distinct(st.workers) &&
      AllWork(st.workers, st.claimed) && RecoveringOk(st)
  }

  lemma EnqueueKeepsUnique(st: State, op: nat, row: Row)
    requires Unique(st.rows) && row.status == Queued
    ensures Unique(Enqueued(st, op, row).rows)
  {
  }

  lemma EnqueueKeeps(st: State, op: nat, row: Row)
    requires Inv(st) && row.status == Queued
    ensures Inv(Enqueued(st, op, row))
  {
    hide Unique, Distinct, AllWork, Knows;
    EnqueueKeepsUnique(st, op, row);
    var after := Enqueued(st, op, row);
    if after != st {
      forall id | id in after.workers
        ensures WorkerOk(after, id)
      {
        assert WorkerOk(st, id);
      }
    }
  }

  lemma ClaimKeeps(st: State, op: nat)
    requires Inv(st)
    ensures Inv(DoClaim(st, op))
  {
    hide Unique, RowsOk, Capacity, LoadOf, AddLoad;
    var after := DoClaim(st, op);
    if after != st {
      forall id | id in after.workers
        ensures WorkerOk(after, id) && (id != st.nextWorker ==> after.workers[id].op != op)
      {
        assert id != st.nextWorker ==> WorkerOk(st, id);
      }
      assert forall id :: id in st.workers ==> WorkerOk(st, id) && id != st.nextWorker;
      forall other | other in after.claimed
        ensures Works(after.workers, other)
      {
        if other != op {
          var id :| id in st.workers && st.workers[id].op == other;
          assert id in after.workers && after.workers[id].op == other;
        } else {
          assert st.nextWorker in after.workers && after.workers[st.nextWorker].op == op;
        }
      }
    }
  }

  // A worker that moves on, with only its own row and action changed.
  function Moved(st: State, id: nat, status: Status, pc: Pc, acted: bool): State
    requires id in st.workers && st.workers[id].op in st.rows
  {
    var op := st.workers[id].op;
    At(SetStatus(if acted then st.(started := st.started + multiset{op}) else st, op, status), id, pc)
  }

  ghost predicate MoveOk(st: State, id: nat, status: Status, pc: Pc, acted: bool)
    requires id in st.workers && st.workers[id].op in st.rows
  {
    var op := st.workers[id].op;
    var started := st.started[op] + (if acted then 1 else 0);
    && (st.rows[op].status.Finished? ==> status == st.rows[op].status)
    && started <= 1 && (started > 0 ==> status != Queued)
    && Knows(pc, status, started) && (pc.Requeueing? ==> started == 0)
  }

  // What the invariant speaks of.
  ghost predicate Same(a: State, b: State) {
    && a.rows == b.rows && a.started == b.started && a.claimed == b.claimed && a.nextWorker == b.nextWorker
    && a.recovering == b.recovering && a.snapshot == b.snapshot && a.workers.Keys == b.workers.Keys
    && forall id :: id in a.workers ==> a.workers[id].(keys := []) == b.workers[id].(keys := [])
  }

  lemma SameKeeps(a: State, b: State)
    requires Inv(b) && Same(a, b)
    ensures Inv(a)
  {
    hide Unique, RowsOk, Knows;
    forall id | id in a.workers
      ensures WorkerOk(a, id)
    {
      assert WorkerOk(b, id);
    }
    forall op | op in a.claimed
      ensures Works(a.workers, op)
    {
      assert Works(b.workers, op);
      var id :| id in b.workers && b.workers[id].op == op;
      assert id in a.workers && a.workers[id].op == op;
    }
  }

  lemma MoveKeepsUnique(rows: map<nat, Row>, op: nat, status: Status)
    requires Unique(rows) && op in rows && (rows[op].status.Finished? ==> status == rows[op].status)
    ensures Unique(rows[op := rows[op].(status := status)])
  {
  }

  lemma MoveKeepsWorkers(st: State, id: nat, status: Status, pc: Pc, acted: bool)
    requires EachOk(st) && Distinct(st.workers) && AllWork(st.workers, st.claimed)
    requires id in st.workers && st.workers[id].op in st.rows && MoveOk(st, id, status, pc, acted)
    ensures var after := Moved(st, id, status, pc, acted);
            EachOk(after) && Distinct(after.workers) && AllWork(after.workers, after.claimed)
  {
    hide Knows;
    var after := Moved(st, id, status, pc, acted);
    assert WorkerOk(st, id);
    forall other | other in after.workers
      ensures WorkerOk(after, other)
    {
      assert WorkerOk(st, other);
      assert other != id ==> st.workers[other].op != st.workers[id].op;
    }
    forall op | op in st.claimed
      ensures Works(after.workers, op)
    {
      assert Works(st.workers, op);
      var i :| i in st.workers && st.workers[i].op == op;
      assert i in after.workers && after.workers[i].op == op;
    }
  }

  lemma MoveKeeps(st: State, id: nat, status: Status, pc: Pc, acted: bool)
    requires Inv(st) && id in st.workers && st.workers[id].op in st.rows && MoveOk(st, id, status, pc, acted)
    ensures Inv(Moved(st, id, status, pc, acted))
  {
    hide Unique, EachOk, Distinct, AllWork, RowsOk, Knows;
    MoveKeepsUnique(st.rows, st.workers[id].op, status);
    MoveKeepsRows(st, id, status, pc, acted);
    MoveKeepsWorkers(st, id, status, pc, acted);
  }

  lemma MoveKeepsRows(st: State, id: nat, status: Status, pc: Pc, acted: bool)
    requires RowsOk(st.rows, st.started) && id in st.workers && st.workers[id].op in st.rows
    requires MoveOk(st, id, status, pc, acted)
    ensures RowsOk(Moved(st, id, status, pc, acted).rows, Moved(st, id, status, pc, acted).started)
  {
  }

  lemma LeaveKeeps(st: State, id: nat)
    requires Inv(st) && id in st.workers
    ensures Inv(DoLeave(st, id))
  {
    hide Unique, RowsOk, Knows;
    var after := DoLeave(st, id);
    forall other | other in after.workers
      ensures WorkerOk(after, other)
    {
      assert WorkerOk(st, other) && st.workers[other].op != st.workers[id].op;
    }
    forall other | other in after.claimed
      ensures Works(after.workers, other)
    {
      var i :| i in st.workers && st.workers[i].op == other;
      assert i in after.workers && after.workers[i].op == other;
    }
  }

  lemma PersistMoves(st: State, id: nat, write: Write, status: Status, next: Pc) returns (saved: Status, pc: Pc)
    requires id in st.workers && WorkerOk(st, id)
    requires MoveOk(st, id, status, st.workers[id].pc, false) && MoveOk(st, id, status, next, false)
    requires MoveOk(st, id, st.rows[st.workers[id].op].status, st.workers[id].pc, false)
    ensures MoveOk(st, id, saved, pc, false)
    ensures Same(Persist(st, id, write, status, next), Moved(st, id, saved, pc, false))
  {
    hide Knows;
    saved, pc := status, st.workers[id].pc;
    match write
    case Lost => saved := st.rows[st.workers[id].op].status;
    case Unheard =>
    case Saved => pc := next;
    case GivenUp =>
      saved, pc := st.rows[st.workers[id].op].status, Leaving;
      KnowsLeaving(saved, st.started[st.workers[id].op]);
  }

  lemma KnowsLeaving(status: Status, started: nat)
    ensures Knows(Leaving, status, started)
  {
  }

  lemma WriteMoves(st: State, id: nat, write: Write) returns (status: Status, pc: Pc)
    requires RowsOk(st.rows, st.started) && id in st.workers && WorkerOk(st, id)
    ensures MoveOk(st, id, status, pc, false) && Same(DoWork(st, id, Writing(write)), Moved(st, id, status, pc, false))
  {
    hide Persist, Same, Moved;
    var w := st.workers[id];
    if w.pc.Claiming? && st.rows[w.op].status == Queued {
      status, pc := PersistMoves(st, id, write, Running, Handling);
    } else if w.pc.Requeueing? {
      status, pc := PersistMoves(st, id, write, Queued, Requeued(w.pc.released, w.pc.settled, w.pc.holdsQueue));
    } else if w.pc.Finishing? {
      status, pc := PersistMoves(st, id, write, Finished(w.pc.outcome), Leaving);
    } else {
      var after := DoWork(st, id, Writing(write));
      assert st.workers[id := st.workers[id]] == st.workers;
      status, pc := st.rows[w.op].status, after.workers[id].pc;
      StaysSame(st, after, id, false);
    }
  }

  // A step that writes nothing changes its place only, or starts the action.
  ghost predicate Stays(st: State, after: State, id: nat, acted: bool)
    requires id in st.workers
  {
    && after.rows == st.rows && after.claimed == st.claimed && after.nextWorker == st.nextWorker
    && after.recovering == st.recovering && after.snapshot == st.snapshot
    && after.started == (if acted then st.started + multiset{st.workers[id].op} else st.started)
    && id in after.workers && after.workers == st.workers[id := after.workers[id]]
    && after.workers[id].op == st.workers[id].op && after.workers[id].lane == st.workers[id].lane
  }

  lemma StaysSame(st: State, after: State, id: nat, acted: bool)
    requires id in st.workers && st.workers[id].op in st.rows && Stays(st, after, id, acted)
    ensures Same(after, Moved(st, id, st.rows[st.workers[id].op].status, after.workers[id].pc, acted))
  {
  }

  lemma StepStays(st: State, id: nat, choice: Choice)
    requires id in st.workers && st.workers[id].op in st.rows && !choice.Writing?
    requires !(st.workers[id].pc.Leaving? && choice.Going?)
    ensures Stays(st, DoWork(st, id, choice), id, st.workers[id].pc.Holding? && choice.Going?)
  {
    hide LockTable.Attempted, LockTable.NextReleased, LockTable.Released, Persist, DoLeave;
    assert st.workers[id := st.workers[id]] == st.workers;
  }

  lemma StepKnows(st: State, id: nat, choice: Choice)
    requires id in st.workers && WorkerOk(st, id) && !choice.Writing? && !(st.workers[id].pc.Leaving? && choice.Going?)
    requires RowsOk(st.rows, st.started) && id in DoWork(st, id, choice).workers
    ensures MoveOk(st, id, st.rows[st.workers[id].op].status, DoWork(st, id, choice).workers[id].pc,
                   st.workers[id].pc.Holding? && choice.Going?)
  {
    hide LockTable.Attempted, LockTable.NextReleased, LockTable.Released, Persist, DoLeave;
  }

  lemma WorkMoves(st: State, id: nat, choice: Choice) returns (status: Status, pc: Pc, acted: bool)
    requires RowsOk(st.rows, st.started) && id in st.workers && WorkerOk(st, id)
    requires !(st.workers[id].pc.Leaving? && choice.Going?)
    ensures MoveOk(st, id, status, pc, acted) && Same(DoWork(st, id, choice), Moved(st, id, status, pc, acted))
  {
    hide DoWork, MoveOk, Same, Moved, RowsOk;
    if choice.Writing? {
      acted := false;
      status, pc := WriteMoves(st, id, choice.write);
    } else {
      StepStays(st, id, choice);
      assert id in DoWork(st, id, choice).workers;
      StepKnows(st, id, choice);
      status, acted := st.rows[st.workers[id].op].status, st.workers[id].pc.Holding? && choice.Going?;
      pc := DoWork(st, id, choice).workers[id].pc;
      StaysSame(st, DoWork(st, id, choice), id, acted);
    }
  }

  lemma WorkKeeps(st: State, id: nat, choice: Choice)
    requires Inv(st)
    ensures Inv(DoWork(st, id, choice))
  {
    hide Unique, MoveOk, RowsOk, Distinct, AllWork, RecoveringOk, Same, Moved, DoWork;
    if id !in st.workers {
      IdleWork(st, id, choice);
    } else {
      assert WorkerOk(st, id);
      if st.workers[id].pc.Leaving? && choice.Going? {
        LeaveKeeps(st, id);
        LeavingWork(st, id);
      } else {
        var status, pc, acted := WorkMoves(st, id, choice);
        MoveKeeps(st, id, status, pc, acted);
        SameKeeps(DoWork(st, id, choice), Moved(st, id, status, pc, acted));
      }
    }
  }

  lemma IdleWork(st: State, id: nat, choice: Choice)
    requires id !in st.workers
    ensures DoWork(st, id, choice) == st
  {
  }

  lemma LeavingWork(st: State, id: nat)
    requires id in st.workers && st.workers[id].op in st.rows && st.workers[id].pc.Leaving?
    ensures DoWork(st, id, Going) == DoLeave(st, id)
  {
  }

  lemma CrashKeeps(st: State)
    requires Inv(st)
    ensures Inv(DoCrash(st))
  {
  }

  lemma BeginKeeps(st: State)
    requires Inv(st)
    ensures Inv(DoBegin(st))
  {
  }

  lemma RecoverKeeps(st: State, op: nat, write: Write)
    requires Inv(st)
    ensures Inv(DoRecover(st, op, write))
  {
    hide Unique, RowsOk, EachOk, Distinct, AllWork;
    var after := DoRecover(st, op, write);
    if after != st {
      assert EachOk(after) by { NoWorkers(after); }
      MoveKeepsUnique(st.rows, op, Finished(Interrupted));
      FinishKeepsRows(st.rows, st.started, op);
    }
  }

  lemma NoWorkers(st: State)
    requires st.workers == map[]
    ensures EachOk(st)
  {
  }

  lemma FinishKeepsRows(rows: map<nat, Row>, started: multiset<nat>, op: nat)
    requires RowsOk(rows, started) && op in rows
    ensures RowsOk(rows[op := rows[op].(status := Finished(Interrupted))], started)
  {
  }

  lemma StepKeeps(st: State, e: Event)
    requires Inv(st)
    ensures Inv(Do(st, e))
  {
    hide Inv, DoWork, DoClaim, DoCrash, DoBegin, DoRecover, Enqueued;
    match e
    case Enqueue(op, server, lane, request) => EnqueueKeeps(st, op, Row(server, lane, request, Queued));
    case Read => ReadKeeps(st);
    case Claim(op) => ClaimKeeps(st, op);
    case Work(id, choice) => WorkKeeps(st, id, choice);
    case Unwait(waiter) => SameKeeps(DoUnwait(st, waiter), st);
    case Outside(event) => SameKeeps(DoOutside(st, event), st);
    case Stop => SameKeeps(Do(st, Stop), st);
    case Crash => CrashKeeps(st);
    case Start => BeginKeeps(st);
    case Recover(op, write) => RecoverKeeps(st, op, write);
  }

  lemma ReadKeeps(st: State)
    requires Inv(st)
    ensures Inv(DoRead(st))
  {
  }

  lemma {:induction false} RunKeeps(st: State, events: seq<Event>)
    requires Inv(st)
    ensures Inv(Run(st, events))
  {
    hide Inv, Do;
    if events != [] {
      RunKeeps(st, events[..|events| - 1]);
      StepKeeps(Run(st, events[..|events| - 1]), events[|events| - 1]);
    }
  }

  lemma FreshIsOk()
    ensures Inv(FRESH)
  {
  }

  /** Over all crashes, restarts, retried writes and requeues, the action of an
    * operation is started at most once. */
  lemma ActsAtMostOnce(events: seq<Event>, op: nat)
    ensures Run(FRESH, events).started[op] <= 1
  {
    hide Run;
    FreshIsOk();
    RunKeeps(FRESH, events);
  }

  /** An operation returns to the queue only if its action was never started. */
  lemma QueuedNeverActed(events: seq<Event>, op: nat)
    requires op in Run(FRESH, events).rows && Run(FRESH, events).rows[op].status == Queued
    ensures op !in Run(FRESH, events).started
  {
    hide Run;
    FreshIsOk();
    RunKeeps(FRESH, events);
  }

  /** A server never has two active operations, and a request key names one. */
  lemma OneActivePerServer(events: seq<Event>, a: nat, b: nat)
    requires var rows := Run(FRESH, events).rows;
      a in rows && b in rows && ((rows[a].server == rows[b].server && Active(rows[a]) && Active(rows[b]))
                                 || (rows[a].request.Some? && rows[a].request == rows[b].request))
    ensures a == b
  {
    hide Run;
    FreshIsOk();
    RunKeeps(FRESH, events);
  }

  lemma StepKeepsFinished(st: State, e: Event, op: nat)
    requires Inv(st) && op in st.rows && st.rows[op].status.Finished?
    ensures op in Do(st, e).rows && Do(st, e).rows[op] == st.rows[op]
  {
    hide Unique, RowsOk, Distinct, AllWork;
    if e.Work? && e.worker in st.workers {
      assert WorkerOk(st, e.worker);
    }
  }

  lemma FinishedNeverActs(st: State, e: Event, op: nat)
    requires Inv(st) && op in st.rows && st.rows[op].status.Finished?
    ensures Do(st, e).started[op] == st.started[op]
  {
    hide Unique, RowsOk, Distinct, AllWork;
    if e.Work? && e.worker in st.workers {
      assert WorkerOk(st, e.worker);
    }
  }

  /** A finished operation stays finished, with its outcome. */
  lemma {:induction false} FinishedStays(st: State, events: seq<Event>, op: nat)
    requires Inv(st) && op in st.rows && st.rows[op].status.Finished?
    ensures op in Run(st, events).rows && Run(st, events).rows[op] == st.rows[op]
  {
    hide Inv, Do;
    if events != [] {
      var before := events[..|events| - 1];
      FinishedStays(st, before, op);
      RunKeeps(st, before);
      StepKeepsFinished(Run(st, before), events[|events| - 1], op);
    }
  }
}
