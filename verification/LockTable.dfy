/** The table of held keys. Its methods run under one mutex, so a run of any
  * number of goroutines is a sequence of events. */
module LockTable {

  import opened Wrappers
  import opened LockKeys

  // Background holders can be asked to stop.
  datatype Holder = Holder(id: nat, background: bool)

  /** The table with what its callers hold of it: the release closures not
    * called yet, with the keys they captured, the lift closures not called yet
    * and the channels closed so far. Identities come from one counter. */
  datatype State = State(
    active: map<string, Holder>,
    leases: map<nat, seq<string>>,
    lifts: set<nat>,
    released: Option<nat>,
    drained: seq<nat>,
    closed: set<nat>,
    next: nat)

  const EMPTY := State(map[], map[], {}, None, [], {}, 0)

  datatype Attempt = Granted(id: nat) | Recovering | Conflicting | Background(cancels: set<nat>)

  /** The normalized keys, each once. */
  function Ordered(keys: seq<string>): (ordered: seq<string>)
    ensures forall k :: k in ordered <==> exists key :: key in keys && Normalize(key) == k
  {
    if keys == [] then []
    else
      var before := Ordered(keys[..|keys| - 1]);
      var key := Normalize(keys[|keys| - 1]);
      assert keys == keys[..|keys| - 1] + [keys[|keys| - 1]];
      if key in before then before else before + [key]
  }

  predicate Hits(keys: seq<string>, held: string) {
    exists key :: key in keys && Overlaps(key, held)
  }

  function Conflicts(active: map<string, Holder>, keys: seq<string>): set<string> {
    set held | held in active && Hits(keys, held)
  }

  function Take(active: map<string, Holder>, keys: seq<string>, owner: Holder): (taken: map<string, Holder>)
    ensures taken.Keys == active.Keys + (set k | k in keys)
    ensures forall k :: k in taken ==> taken[k] == if k in keys then owner else active[k]
  {
    if keys == [] then active else Take(active, keys[..|keys| - 1], owner)[keys[|keys| - 1] := owner]
  }

  function Attempted(st: State, keys: seq<string>, background: bool, recovering: bool): (State, Attempt) {
    var ordered := Ordered(keys);
    var conflicts := Conflicts(st.active, ordered);
    if st.lifts != {} && !recovering then (st, Recovering)
    else if exists held :: held in conflicts && !st.active[held].background then (st, Conflicting)
    else if conflicts != {} then (st, Background(set held | held in conflicts :: st.active[held].id))
    else
      (st.(active := Take(st.active, ordered, Holder(st.next, background)),
           leases := st.leases[st.next := ordered], next := st.next + 1),
       Granted(st.next))
  }

  function Closing(released: Option<nat>): set<nat> {
    if released.Some? then {released.value} else {}
  }

  /** A release closure; calling it again does nothing. */
  function Released(st: State, id: nat): State {
    if id !in st.leases then st
    else
      var active := st.active - (set k | k in st.leases[id]);
      var drained := if active == map[] then (set c | c in st.drained) else {};
      st.(active := active, leases := st.leases - {id}, released := None,
          drained := if active == map[] then [] else st.drained,
          closed := st.closed + Closing(st.released) + drained)
  }

  function NextReleased(st: State): (State, nat) {
    if st.released.Some? then (st, st.released.value)
    else (st.(released := Some(st.next), next := st.next + 1), st.next)
  }

  function DrainedChannel(st: State): (State, nat) {
    if st.active == map[] then (st.(closed := st.closed + {st.next}, next := st.next + 1), st.next)
    else (st.(drained := st.drained + [st.next], next := st.next + 1), st.next)
  }

  function Fenced(st: State): State {
    st.(lifts := st.lifts + {st.next}, next := st.next + 1)
  }

  function Lifted(st: State, id: nat): State {
    st.(lifts := st.lifts - {id})
  }

  datatype Event =
    | Acquiring(keys: seq<string>, background: bool, recovering: bool)
    | Releasing(id: nat)
    | Awaiting
    | Draining
    | Fencing
    | Lifting(id: nat)

  function Apply(st: State, e: Event): State {
    match e
    case Acquiring(keys, background, recovering) => Attempted(st, keys, background, recovering).0
    case Releasing(id) => Released(st, id)
    case Awaiting => NextReleased(st).0
    case Draining => DrainedChannel(st).0
    case Fencing => Fenced(st)
    case Lifting(id) => Lifted(st, id)
  }

  function Run(st: State, events: seq<Event>): State {
    if events == [] then st else Apply(Run(st, events[..|events| - 1]), events[|events| - 1])
  }

  // The invariant of every run

  /** The leases part the held keys between them. */
  ghost predicate Parted(st: State) {
    && (forall k :: k in st.active ==> st.active[k].id in st.leases && k in st.leases[st.active[k].id])
    && (forall id, k :: id in st.leases && k in st.leases[id] ==> k in st.active && st.active[k].id == id)
  }

  /** Keys of distinct holders never overlap, and every key is normalized. */
  ghost predicate Apart(active: map<string, Holder>) {
    && (forall k, l :: k in active && l in active && Overlaps(k, l) ==> active[k].id == active[l].id)
    && (forall k :: k in active ==> Normalize(k) == k)
  }

  /** Waiters' channels are open, and nobody waits for an empty table. */
  ghost predicate Waiting(st: State) {
    && (st.released.Some? ==> st.released.value !in st.closed && st.released.value !in st.drained)
    && (forall c :: c in st.drained ==> c !in st.closed)
    && (st.drained != [] ==> st.active != map[])
  }

  ghost predicate Bounded(st: State) {
    && (forall id :: id in st.leases ==> id < st.next)
    && (forall id :: id in st.lifts ==> id < st.next)
    && (forall c :: c in st.closed ==> c < st.next)
    && (forall c :: c in st.drained ==> c < st.next)
    && (st.released.Some? ==> st.released.value < st.next)
  }

  ghost predicate Valid(st: State) {
    Parted(st) && Apart(st.active) && Waiting(st) && Bounded(st)
  }

  lemma OverlapsBothWays(k: string, l: string)
    ensures Overlaps(k, l) == Overlaps(l, k)
  {
  }

  lemma OrderedNormal(keys: seq<string>)
    ensures forall k :: k in Ordered(keys) ==> Normalize(k) == k
  {
    forall k | k in Ordered(keys)
      ensures Normalize(k) == k
    {
      var key :| key in keys && Normalize(key) == k;
      if PATH <= key {
        NormalizeKeepsNames(key);
      }
    }
  }

  lemma Reflexive(k: string)
    ensures Overlaps(k, k)
  {
  }

  // Keys without conflicts are new, and stay apart from what is held.
  lemma TakeStaysApart(active: map<string, Holder>, ordered: seq<string>, owner: Holder)
    requires Apart(active) && Conflicts(active, ordered) == {} && forall k :: k in ordered ==> Normalize(k) == k
    ensures Apart(Take(active, ordered, owner)) && forall k :: k in ordered ==> k !in active
  {
    hide Normalize, Overlaps, Conflicts, Take, Hits;
    forall l | l in active
      ensures forall k :: k in ordered ==> !Overlaps(k, l) && !Overlaps(l, k) && k != l
    {
      NoConflict(active, ordered, l);
    }
  }

  lemma NoConflict(active: map<string, Holder>, ordered: seq<string>, held: string)
    requires held in active && Conflicts(active, ordered) == {}
    ensures forall k :: k in ordered ==> !Overlaps(k, held) && !Overlaps(held, k) && k != held
  {
    hide Overlaps;
    forall k | k in ordered
      ensures !Overlaps(k, held) && !Overlaps(held, k) && k != held
    {
      OverlapsBothWays(k, held);
      Reflexive(held);
      assert Overlaps(k, held) ==> Hits(ordered, held);
      assert Hits(ordered, held) ==> held in Conflicts(active, ordered);
    }
  }

  lemma TakeKeepsValid(st: State, keys: seq<string>, background: bool)
    requires Valid(st) && Conflicts(st.active, Ordered(keys)) == {}
    ensures Valid(st.(active := Take(st.active, Ordered(keys), Holder(st.next, background)),
                      leases := st.leases[st.next := Ordered(keys)], next := st.next + 1))
  {
    hide Ordered, Conflicts, Take, Apart;
    OrderedNormal(keys);
    TakeStaysApart(st.active, Ordered(keys), Holder(st.next, background));
    if st.drained != [] {
      var k :| k in st.active;
      assert k in Take(st.active, Ordered(keys), Holder(st.next, background));
    }
  }

  lemma ReleaseKeepsValid(st: State, id: nat)
    requires Valid(st)
    ensures Valid(Released(st, id))
  {
    hide Normalize, Overlaps;
    if id in st.leases {
      ReleasedIs(st, id);
    }
  }

  /** A release removes exactly the keys of its own holder. */
  lemma ReleasedIs(st: State, id: nat)
    requires Valid(st) && id in st.leases
    ensures forall k :: k in Released(st, id).active <==> k in st.active && st.active[k].id != id
    ensures forall k :: k in Released(st, id).active ==> Released(st, id).active[k] == st.active[k]
    ensures Released(st, id).leases == st.leases - {id}
    ensures forall k :: k in st.leases[id] <==> k in st.active && st.active[k].id == id
  {
  }

  lemma StepKeepsValid(st: State, e: Event)
    requires Valid(st)
    ensures Valid(Apply(st, e))
  {
    hide Ordered, Normalize, Overlaps, Conflicts, Take, Released, NextReleased, DrainedChannel, Fenced, Lifted, Valid;
    match e
    case Acquiring(keys, background, recovering) =>
      if Attempted(st, keys, background, recovering).1.Granted? {
        TakeKeepsValid(st, keys, background);
      }
    case Releasing(id) => ReleaseKeepsValid(st, id);
    case _ => CountKeepsValid(st, e);
  }

  // The events that take and free no key.
  lemma CountKeepsValid(st: State, e: Event)
    requires Valid(st) && !e.Acquiring? && !e.Releasing?
    ensures Valid(Apply(st, e))
  {
    hide Ordered, Normalize, Overlaps, Conflicts, Take, Released, Attempted;
  }

  /** In every run of acquires and releases, distinct holders' keys stay apart. */
  lemma {:induction false} RunKeepsValid(st: State, events: seq<Event>)
    requires Valid(st)
    ensures Valid(Run(st, events))
  {
    hide Valid, Apply;
    if events != [] {
      RunKeepsValid(st, events[..|events| - 1]);
      StepKeepsValid(Run(st, events[..|events| - 1]), events[|events| - 1]);
    }
  }

  lemma EmptyIsValid()
    ensures Valid(EMPTY)
  {
  }

  /** Acquisition takes every key or none, exactly when no key conflicts with
    * what is held and no fence stands in the way. */
  lemma AllOrNothing(st: State, keys: seq<string>, background: bool, recovering: bool)
    requires Valid(st)
    ensures var (after, result) := Attempted(st, keys, background, recovering);
      && (result.Granted? <==>
        (st.lifts == {} || recovering) && forall key, held :: key in keys && held in st.active ==> !Conflict(key, held))
      && (result.Granted? ==> after.active.Keys == st.active.Keys + (set k | k in Ordered(keys)))
      && (result.Granted? ==> forall k :: k in after.active ==>
            after.active[k] == if k in Ordered(keys) then Holder(result.id, background) else st.active[k])
      && (result.Granted? ==> result.id !in st.leases && after.leases == st.leases[result.id := Ordered(keys)])
      && (!result.Granted? ==> after == st)
  {
    hide Valid, Ordered, Normalize, Overlaps, Conflict, Take;
    assert Apart(st.active) && Bounded(st) by { assert Valid(st) by { } ValidParts(st); }
    forall held | held in st.active
      ensures held in Conflicts(st.active, Ordered(keys)) <==> exists key :: key in keys && Conflict(key, held)
    {
      HitsIsConflict(st.active, keys, held);
    }
  }

  lemma ValidParts(st: State)
    requires Valid(st)
    ensures Parted(st) && Apart(st.active) && Waiting(st) && Bounded(st)
  {
  }

  lemma HitsIsConflict(active: map<string, Holder>, keys: seq<string>, held: string)
    requires Apart(active) && held in active
    ensures Hits(Ordered(keys), held) <==> exists key :: key in keys && Conflict(key, held)
  {
    hide Normalize, Overlaps, Conflict;
    forall key: string
      ensures Overlaps(Normalize(key), held) <==> Conflict(key, held)
    {
      OverlapsIsConflict(key, held);
    }
    if Hits(Ordered(keys), held) {
      var k :| k in Ordered(keys) && Overlaps(k, held);
      var key :| key in keys && Normalize(key) == k;
      assert Conflict(key, held);
    }
    if key :| key in keys && Conflict(key, held) {
      assert Normalize(key) in Ordered(keys) && Overlaps(Normalize(key), held);
    }
  }

  /** Foreground work refuses at once; otherwise exactly the background holders
    * in the way are asked to stop. */
  lemma RefusalSays(st: State, keys: seq<string>, background: bool, recovering: bool)
    requires Valid(st) && (st.lifts == {} || recovering)
    ensures var result := Attempted(st, keys, background, recovering).1;
      && (result.Conflicting? <==>
        exists key, held :: key in keys && held in st.active && Conflict(key, held) && !st.active[held].background)
      && (result.Background? ==> forall id :: id in result.cancels <==>
            exists key, held :: key in keys && held in st.active && Conflict(key, held) && st.active[held].id == id)
  {
    hide Ordered, Conflict, Take, Hits, Parted, Apart, Waiting, Bounded;
    forall held | held in st.active
      ensures held in Conflicts(st.active, Ordered(keys)) <==> exists key :: key in keys && Conflict(key, held)
    {
      HitsIsConflict(st.active, keys, held);
    }
  }

  /** Releasing what was just acquired restores the table. */
  lemma ReleaseUndoesAcquire(st: State, keys: seq<string>, background: bool, recovering: bool)
    requires Valid(st) && Attempted(st, keys, background, recovering).1.Granted?
    ensures var (after, result) := Attempted(st, keys, background, recovering);
      Released(after, result.id).active == st.active && Released(after, result.id).leases == st.leases
  {
    hide Ordered, Conflicts, Valid, Take, Released, Attempted;
    var (after, result) := Attempted(st, keys, background, recovering);
    AllOrNothing(st, keys, background, recovering);
    StepKeepsValid(st, Acquiring(keys, background, recovering));
    ReleasedIs(after, result.id);
    ValidParts(st);
    GrantIsNew(st, keys, background, recovering);
    assert Released(after, result.id).leases == st.leases;
    assert Released(after, result.id).active == st.active;
  }

  // The new keys are those of the new holder.
  lemma GrantIsNew(st: State, keys: seq<string>, background: bool, recovering: bool)
    requires Valid(st) && Attempted(st, keys, background, recovering).1.Granted?
    ensures var (after, result) := Attempted(st, keys, background, recovering);
      && (forall k :: k in st.active ==>
        k in after.active && after.active[k] == st.active[k] && st.active[k].id != result.id)
      && (forall k :: k in after.active && k !in st.active ==> after.active[k].id == result.id)
  {
  }

  // Wake-ups

  ghost predicate Within(active: map<string, Holder>, more: map<string, Holder>) {
    forall k :: k in active ==> k in more && more[k] == active[k]
  }

  /** Whether some release takes effect in a run. */
  ghost predicate Frees(st: State, events: seq<Event>) {
    exists i :: 0 <= i < |events| && FreesAt(st, events, i)
  }

  ghost predicate FreesAt(st: State, events: seq<Event>, i: nat)
    requires i < |events|
  {
    events[i].Releasing? && events[i].id in Run(st, events[..i]).leases
  }

  lemma {:induction false} ClosedStays(st: State, events: seq<Event>)
    ensures st.closed <= Run(st, events).closed
  {
    if events != [] {
      ClosedStays(st, events[..|events| - 1]);
      StepKeepsClosed(Run(st, events[..|events| - 1]), events[|events| - 1]);
    }
  }

  lemma StepKeepsClosed(st: State, e: Event)
    ensures st.closed <= Apply(st, e).closed
  {
  }

  /** The channel of the next release is closed exactly when a release takes
    * effect, and until then every held key stays with its holder. */
  lemma {:induction false} NextReleaseCloses(st: State, c: nat, events: seq<Event>)
    requires Valid(st) && st.released == Some(c)
    ensures c in Run(st, events).closed <==> Frees(st, events)
    ensures c !in Run(st, events).closed ==>
            Run(st, events).released == Some(c) && Within(st.active, Run(st, events).active)
  {
    hide Valid, Apply;
    if events == [] {
      ValidParts(st);
    } else {
      var before, e := events[..|events| - 1], events[|events| - 1];
      var mid := Run(st, before);
      NextReleaseCloses(st, c, before);
      RunKeepsValid(st, before);
      FreesLast(st, events);
      StepKeepsClosed(mid, e);
      if c !in mid.closed {
        StepOpens(mid, e, c);
      }
    }
  }

  lemma FreesLast(st: State, events: seq<Event>)
    requires events != []
    ensures var before := events[..|events| - 1];
      Frees(st, events) <==> Frees(st, before) || FreesAt(st, events, |events| - 1)
  {
    hide Run;
    var before := events[..|events| - 1];
    assert forall i :: 0 <= i < |before| ==> before[..i] == events[..i];
    assert forall i :: 0 <= i < |before| ==> (FreesAt(st, before, i) <==> FreesAt(st, events, i));
  }

  lemma StepOpens(st: State, e: Event, c: nat)
    requires Valid(st) && st.released == Some(c)
    ensures c in Apply(st, e).closed <==> e.Releasing? && e.id in st.leases
    ensures c !in Apply(st, e).closed ==> Apply(st, e).released == Some(c) && Within(st.active, Apply(st, e).active)
  {
    hide Ordered, Conflicts, Parted, Apart, Bounded;
    ValidParts(st);
    if e.Acquiring? && Attempted(st, e.keys, e.background, e.recovering).1.Granted? {
      AllOrNothing(st, e.keys, e.background, e.recovering);
      NothingHeld(st.active, Ordered(e.keys));
    }
  }

  lemma NothingHeld(active: map<string, Holder>, ordered: seq<string>)
    requires Conflicts(active, ordered) == {}
    ensures forall k :: k in active ==> k !in ordered
  {
    forall k | k in active
      ensures k !in ordered
    {
      NoConflict(active, ordered, k);
    }
  }

  /** No wake-up is lost: a waiter takes the channel, then tries and fails while
    * others run. If a key that was held at its attempt is later freed, the
    * channel it took before the attempt is closed. */
  lemma WakeupNotLost(st: State, between: seq<Event>, after: seq<Event>, key: string)
    requires Valid(st)
    requires var attempt := Run(NextReleased(st).0, between);
      key in attempt.active &&
        (key in Run(attempt, after).active ==> Run(attempt, after).active[key] != attempt.active[key])
    ensures NextReleased(st).1 in Run(Run(NextReleased(st).0, between), after).closed
  {
    hide Run, Valid;
    var (first, c) := NextReleased(st);
    var attempt := Run(first, between);
    StepKeepsValid(st, Awaiting);
    NextReleaseCloses(first, c, between);
    RunKeepsValid(first, between);
    if c in attempt.closed {
      ClosedStays(attempt, after);
    } else {
      NextReleaseCloses(attempt, c, after);
    }
  }

  ghost predicate EmptyAt(st: State, events: seq<Event>, i: nat)
    requires i <= |events|
  {
    Run(st, events[..i]).active == map[]
  }

  ghost predicate Emptied(st: State, events: seq<Event>) {
    exists i :: 0 <= i <= |events| && EmptyAt(st, events, i)
  }

  lemma EmptiedLast(st: State, events: seq<Event>)
    requires events != []
    ensures Emptied(st, events) <==> Emptied(st, events[..|events| - 1]) || Run(st, events).active == map[]
  {
    hide Run;
    var before := events[..|events| - 1];
    assert events[..|events|] == events;
    assert forall i :: 0 <= i <= |before| ==> before[..i] == events[..i];
    assert forall i :: 0 <= i <= |before| ==> (EmptyAt(st, before, i) <==> EmptyAt(st, events, i));
    assert EmptyAt(st, events, |events|) <==> Run(st, events).active == map[];
  }

  lemma StepDrains(st: State, e: Event, c: nat)
    requires Valid(st) && c in st.drained
    ensures c in Apply(st, e).closed <==> Apply(st, e).active == map[]
    ensures c !in Apply(st, e).closed ==> c in Apply(st, e).drained
  {
    hide Ordered, Conflicts, Parted, Apart, Bounded;
    ValidParts(st);
    var k :| k in st.active;
    if e.Acquiring? && Attempted(st, e.keys, e.background, e.recovering).1.Granted? {
      AllOrNothing(st, e.keys, e.background, e.recovering);
      assert k in Apply(st, e).active;
    }
  }

  lemma {:induction false} DrainedFollows(st: State, c: nat, events: seq<Event>)
    requires Valid(st) && c in st.drained
    ensures c in Run(st, events).closed <==> Emptied(st, events)
    ensures c !in Run(st, events).closed ==> c in Run(st, events).drained
  {
    hide Valid, Apply, EmptyAt, Emptied;
    if events == [] {
      NotEmptied(st, c);
    } else {
      var before, e := events[..|events| - 1], events[|events| - 1];
      var mid := Run(st, before);
      DrainedFollows(st, c, before);
      RunKeepsValid(st, before);
      EmptiedLast(st, events);
      StepKeepsClosed(mid, e);
      if c !in mid.closed {
        StepDrains(mid, e, c);
      }
    }
  }

  lemma EmptyAtStart(st: State, events: seq<Event>)
    ensures EmptyAt(st, events, 0) <==> st.active == map[]
  {
  }

  lemma NotEmptied(st: State, c: nat)
    requires Valid(st) && c in st.drained
    ensures c !in st.closed && !Emptied(st, [])
  {
    hide Parted, Apart, Bounded;
    assert forall i :: 0 <= i <= 0 ==> !EmptyAt(st, [], i);
  }

  /** Drained's channel is closed exactly once no keys were held at some time
    * since. */
  lemma DrainedCloses(st: State, events: seq<Event>)
    requires Valid(st)
    ensures var (first, c) := DrainedChannel(st);
      c in Run(first, events).closed <==> Emptied(first, events)
  {
    hide Valid, Run, EmptyAt;
    var (first, c) := DrainedChannel(st);
    StepKeepsValid(st, Draining);
    if c in first.drained {
      DrainedFollows(first, c, events);
    } else {
      ClosedStays(first, events);
      EmptyAtStart(first, events);
    }
  }

  /** While a fence is not lifted, only recovery acquires keys; lifting it twice
    * lifts no other. */
  lemma {:induction false} FenceHolds(st: State, events: seq<Event>)
    requires Valid(st)
    ensures var first := Fenced(st);
      var id := st.next;
      Lifting(id) !in events ==> id in Run(first, events).lifts
    ensures forall keys, background :: Lifting(st.next) !in events ==>
      Attempted(Run(Fenced(st), events), keys, background, false) == (Run(Fenced(st), events), Recovering)
  {
    hide Valid, Ordered, Conflicts;
    if events != [] {
      var before := events[..|events| - 1];
      FenceHolds(st, before);
    }
  }

  lemma OrderedStep(keys: seq<string>, i: nat)
    requires i < |keys|
    ensures var key := Normalize(keys[i]);
      Ordered(keys[..i + 1]) == if key in Ordered(keys[..i]) then Ordered(keys[..i]) else Ordered(keys[..i]) + [key]
  {
    assert keys[..i + 1][..i] == keys[..i];
  }

  lemma TakeStep(active: map<string, Holder>, keys: seq<string>, i: nat, owner: Holder)
    requires i < |keys|
    ensures Take(active, keys[..i + 1], owner) == Take(active, keys[..i], owner)[keys[i] := owner]
  {
    assert keys[..i + 1][..i] == keys[..i];
  }

  class Table {
    var active: map<string, Holder>
    var released: Option<nat>
    var drained: seq<nat>
    var fences: nat
    // The closures handed out and not called yet, and the closed channels.
    var leases: map<nat, seq<string>>
    var lifts: set<nat>
    var closed: set<nat>
    var next: nat

    constructor ()
      ensures Ready() && View() == EMPTY
    {
      active, released, drained, fences := map[], None, [], 0;
      leases, lifts, closed, next := map[], {}, {}, 0;
      new;
      EmptyIsValid();
    }

    ghost function View(): State
      reads this
    {
      State(active, leases, lifts, released, drained, closed, next)
    }

    ghost predicate Ready()
      reads this
    {
      Valid(View()) && fences == |lifts|
    }

    /** Fence, with the identity of its lift closure. */
    method Fence() returns (id: nat)
      requires Ready()
      modifies this
      ensures Ready() && View() == Fenced(old(View())) && id == old(next)
    {
      hide Valid;
      StepKeepsValid(View(), Fencing);
      assert next !in lifts by { ValidParts(View()); }
      fences := fences + 1;
      id := next;
      lifts, next := lifts + {id}, next + 1;
    }

    /** A lift closure takes effect once. */
    method Lift(id: nat)
      requires Ready()
      modifies this
      ensures Ready() && View() == Lifted(old(View()), id)
    {
      hide Valid;
      StepKeepsValid(View(), Lifting(id));
      if id in lifts {
        lifts := lifts - {id};
        fences := fences - 1;
      }
    }

    // The held keys in the way, in any order.
    method FindConflicts(ordered: seq<string>) returns (conflicts: set<string>)
      ensures conflicts == Conflicts(active, ordered)
    {
      hide Overlaps;
      conflicts := {};
      var left := active.Keys;
      while left != {}
        invariant left <= active.Keys
        invariant conflicts == set held | held in active && held !in left && Hits(ordered, held)
      {
        var held :| held in left;
        left := left - {held};
        for i := 0 to |ordered|
          invariant !Hits(ordered[..i], held)
        {
          if Overlaps(ordered[i], held) {
            assert Hits(ordered, held);
            conflicts := conflicts + {held};
            break;
          }
        }
      }
    }

    // What a refusal says about the holders in the way.
    method Refuse(conflicts: set<string>) returns (result: Attempt)
      requires conflicts <= active.Keys
      ensures result == if exists held :: held in conflicts && !active[held].background then Conflicting
                        else Background(set held | held in conflicts :: active[held].id)
    {
      var cancels: set<nat> := {};
      var left := conflicts;
      while left != {}
        invariant left <= conflicts
        invariant forall held :: held in conflicts - left ==> active[held].background
        invariant cancels == set held | held in conflicts - left :: active[held].id
      {
        var held :| held in left;
        if !active[held].background {
          return Conflicting;
        }
        cancels := cancels + {active[held].id};
        left := left - {held};
      }
      assert conflicts - left == conflicts;
      return Background(cancels);
    }

    /** acquire: every key or none. The order of the keys does not matter here. */
    method Acquire(keys: seq<string>, background: bool, recovering: bool) returns (result: Attempt)
      requires Ready()
      modifies this
      ensures Ready() && (View(), result) == Attempted(old(View()), keys, background, recovering)
    {
      hide Valid, Ordered, Conflicts, Take, Normalize;
      StepKeepsValid(View(), Acquiring(keys, background, recovering));
      var ordered: seq<string> := [];
      assert Ordered(keys[..0]) == [] by { OrderedNone(keys); }
      for i := 0 to |keys|
        invariant ordered == Ordered(keys[..i]) && Ready() && View() == old(View())
      {
        OrderedStep(keys, i);
        var normalized := Normalize(keys[i]);
        if normalized !in ordered {
          ordered := ordered + [normalized];
        }
      }
      assert keys[..|keys|] == keys;
      if fences > 0 && !recovering {
        return Recovering;
      }
      var conflicts := FindConflicts(ordered);
      if conflicts != {} {
        assert conflicts <= active.Keys by { ConflictsHeld(active, ordered); }
        result := Refuse(conflicts);
        return;
      }
      var owner := Holder(next, background);
      Insert(ordered, owner);
      leases, next := leases[next := ordered], next + 1;
      result := Granted(owner.id);
    }

    method Insert(ordered: seq<string>, owner: Holder)
      modifies this`active
      ensures active == Take(old(active), ordered, owner)
    {
      hide Take;
      assert ordered[..0] == [] && Take(active, [], owner) == active by { TakeNone(active, owner); }
      for i := 0 to |ordered|
        invariant active == Take(old(active), ordered[..i], owner)
      {
        TakeStep(old(active), ordered, i, owner);
        active := active[ordered[i] := owner];
      }
      assert ordered[..|ordered|] == ordered;
    }

    method Delete(ordered: seq<string>)
      modifies this`active
      ensures active == old(active) - (set k | k in ordered)
    {
      for i := 0 to |ordered|
        invariant active == old(active) - (set k | k in ordered[..i])
      {
        active := active - {ordered[i]};
      }
      assert ordered[..|ordered|] == ordered;
    }

    /** A release closure takes effect once. */
    method Release(id: nat)
      requires Ready()
      modifies this
      ensures Ready() && View() == Released(old(View()), id)
    {
      hide Valid;
      StepKeepsValid(View(), Releasing(id));
      if id !in leases {
        return;
      }
      var ordered := leases[id];
      leases := leases - {id};
      Delete(ordered);
      if released.Some? {
        closed := closed + {released.value};
        released := None;
      }
      if active == map[] {
        closed := closed + set c | c in drained;
        drained := [];
      }
      assert View() == Released(old(View()), id);
    }

    method NextRelease() returns (c: nat)
      requires Ready()
      modifies this
      ensures Ready() && (View(), c) == NextReleased(old(View()))
    {
      hide Valid;
      StepKeepsValid(View(), Awaiting);
      if released.None? {
        released := Some(next);
        next := next + 1;
      }
      return released.value;
    }

    method Drained() returns (c: nat)
      requires Ready()
      modifies this
      ensures Ready() && (View(), c) == DrainedChannel(old(View()))
    {
      hide Valid;
      StepKeepsValid(View(), Draining);
      c := next;
      next := next + 1;
      if active == map[] {
        closed := closed + {c};
      } else {
        drained := drained + [c];
      }
    }

    /** What other goroutines do to the table meanwhile. */
    method Others() returns (ghost events: seq<Event>)
      requires Ready()
      modifies this
      ensures Ready() && View() == Run(old(View()), events)
    {
      hide Valid, Run, Attempted, Released, NextReleased, DrainedChannel, Fenced, Lifted;
      events := [];
      assert Run(View(), []) == View() by { RunNothing(View()); }
      var steps: int := *;
      while steps > 0
        invariant Ready() && View() == Run(old(View()), events)
      {
        steps := steps - 1;
        var choice: int := *;
        ghost var e := Fencing;
        ghost var before := View();
        if choice == 0 {
          var keys: seq<string>, background: bool, recovering: bool := *, *, *;
          var _ := Acquire(keys, background, recovering);
          e := Acquiring(keys, background, recovering);
        } else if choice == 1 {
          var id := next;
          if leases.Keys != {} {
            id :| id in leases.Keys;
          }
          Release(id);
          e := Releasing(id);
        } else if choice == 2 {
          var _ := NextRelease();
          e := Awaiting;
        } else if choice == 3 {
          var _ := Drained();
          e := Draining;
        } else if choice == 4 {
          var _ := Fence();
        } else {
          var id := next;
          if lifts != {} {
            id :| id in lifts;
          }
          Lift(id);
          e := Lifting(id);
        }
        RunMore(old(View()), events, e);
        assert View() == Apply(before, e);
        events := events + [e];
      }
    }

    /** AcquirePreempting, among any other goroutines, where the deadline allows
      * so many wake-ups. `tables` are the tables its attempts found. Every attempt
      * but the last met only background holders, and exactly the holders in the
      * way of such attempts are cancelled. It gives up on a foreground holder or a
      * fence at once; on background holders only with a wake-up just received, or
      * with each of them cancelled and still there. */
    method AcquirePreempting(keys: seq<string>, background: bool, patience: nat)
      returns (result: Attempt, woken: bool, cancelled: set<nat>, ghost tables: seq<State>)
      requires Ready()
      modifies this
      ensures Ready() && !result.Background? && tables != []
      ensures forall i :: 0 <= i < |tables| ==> Valid(tables[i])
      ensures forall i :: 0 <= i < |tables| - 1 ==> Attempted(tables[i], keys, background, false).1.Background?
      ensures cancelled == Cancels(tables, keys, background)
      ensures woken ==> |tables| == patience + 1 && Attempted(Last(tables), keys, background, false).1.Background?
      ensures var last := Attempted(Last(tables), keys, background, false).1;
        if last.Background? then result == Conflicting && (woken || StillHeld(Last(tables), View(), keys))
        else result == last && View() == Attempted(Last(tables), keys, background, false).0
    {
      hide Valid, Run, Released, NextReleased, DrainedChannel, Ordered, Conflicts, Take, Attempted, Cancels, StillHeld;
      var left := patience;
      cancelled, tables := {}, [];
      CancelsNone(keys, background);
      while true
        invariant Ready() && cancelled == Cancels(tables, keys, background) && |tables| + left == patience
        invariant forall i :: 0 <= i < |tables| ==> Valid(tables[i])
        invariant forall i :: 0 <= i < |tables| ==> Attempted(tables[i], keys, background, false).1.Background?
        decreases left
      {
        ghost var start := View();
        var released := NextRelease();
        ghost var between := Others();
        ghost var found := View();
        var attempt := Acquire(keys, background, false);
        CancelsMore(tables, found, keys, background);
        tables := tables + [found];
        if !attempt.Background? {
          return attempt, false, cancelled, tables;
        }
        cancelled := cancelled + attempt.cancels;
        assert View() == found by { RefusedSame(found, keys, background); }
        ghost var after := Others();
        if released in closed && left > 0 {
          left := left - 1;
        } else {
          if released !in closed {
            StillInTheWay(start, between, after, keys);
          }
          return Conflicting, released in closed, cancelled, tables;
        }
      }
    }
  }

  function Last(tables: seq<State>): State
    requires tables != []
  {
    tables[|tables| - 1]
  }

  /** The holders that the attempts at these tables ask to stop. */
  function Cancels(tables: seq<State>, keys: seq<string>, background: bool): set<nat> {
    if tables == [] then {}
    else
      var attempt := Attempted(Last(tables), keys, background, false).1;
      Cancels(tables[..|tables| - 1], keys, background) + if attempt.Background? then attempt.cancels else {}
  }

  lemma CancelsNone(keys: seq<string>, background: bool)
    ensures Cancels([], keys, background) == {}
  {
  }

  lemma CancelsMore(tables: seq<State>, st: State, keys: seq<string>, background: bool)
    ensures var attempt := Attempted(st, keys, background, false).1;
      Cancels(tables + [st], keys, background) ==
      Cancels(tables, keys, background) + if attempt.Background? then attempt.cancels else {}
  {
    hide Attempted;
    assert (tables + [st])[..|tables|] == tables;
  }

  lemma RefusedSame(st: State, keys: seq<string>, background: bool)
    requires !Attempted(st, keys, background, false).1.Granted?
    ensures Attempted(st, keys, background, false).0 == st
  {
  }

  /** What was in the way of these keys is still held, by the same holders. */
  ghost predicate StillHeld(st: State, later: State, keys: seq<string>) {
    forall held :: held in Conflicts(st.active, Ordered(keys)) ==>
      held in later.active && later.active[held] == st.active[held]
  }

  lemma RunNothing(st: State)
    ensures Run(st, []) == st
  {
  }

  lemma {:induction false} RunMore(st: State, events: seq<Event>, e: Event)
    ensures Run(st, events + [e]) == Apply(Run(st, events), e)
  {
  }

  // While the channel is open, what was in the way still is.
  lemma StillInTheWay(st: State, between: seq<Event>, after: seq<Event>, keys: seq<string>)
    requires Valid(st)
    requires NextReleased(st).1 !in Run(Run(NextReleased(st).0, between), after).closed
    ensures StillHeld(Run(NextReleased(st).0, between), Run(Run(NextReleased(st).0, between), after), keys)
  {
    hide Run, Valid, Ordered;
    var attempt := Run(NextReleased(st).0, between);
    forall held | held in Conflicts(attempt.active, Ordered(keys))
      ensures held in Run(attempt, after).active && Run(attempt, after).active[held] == attempt.active[held]
    {
      if held !in Run(attempt, after).active || Run(attempt, after).active[held] != attempt.active[held] {
        WakeupNotLost(st, between, after, held);
      }
    }
  }

  lemma OrderedNone(keys: seq<string>)
    ensures Ordered(keys[..0]) == []
  {
  }

  lemma TakeNone(active: map<string, Holder>, owner: Holder)
    ensures Take(active, [], owner) == active
  {
  }

  lemma ConflictsHeld(active: map<string, Holder>, ordered: seq<string>)
    ensures Conflicts(active, ordered) <= active.Keys
  {
  }
}
