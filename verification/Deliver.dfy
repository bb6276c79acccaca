/** Sending notifications: deliver's flag and try-lock, for any number of
  * concurrent callers. */
module Deliver {

  // Where a call, and then the goroutine it may start, is. Every step is one
  // atomic access; none of them blocks.
  datatype Pc =
    | Calling
    | Trying
    | Swapping
    | Beginning
    | Passing
    | Unlocking
    | Loading
    | Relocking
    | Gone

  /** stored counts the calls that stored the flag, begun how many of them the
    * pass begun last comes after. */
  datatype State = State(again: bool, locked: bool, pcs: seq<Pc>, stored: nat, begun: nat)

  const QUIET := State(false, false, [], 0, 0)

  predicate Holds(pc: Pc) {
    pc.Swapping? || pc.Beginning? || pc.Passing? || pc.Unlocking?
  }

  function At(st: State, i: nat, pc: Pc): State
    requires i < |st.pcs|
  {
    st.(pcs := st.pcs[i := pc])
  }

  /** One step of call or goroutine i. */
  function Step(st: State, i: nat): State
    requires i < |st.pcs|
  {
    match st.pcs[i]
    case Calling => At(st.(again := true, stored := st.stored + 1), i, Trying)
    case Trying => if st.locked then At(st, i, Gone) else At(st.(locked := true), i, Swapping)
    case Swapping => At(st.(again := false), i, if st.again then Beginning else Unlocking)
    case Beginning => At(st.(begun := st.stored), i, Passing)
    case Passing => At(st, i, Swapping)
    case Unlocking => At(st.(locked := false), i, Loading)
    case Loading => At(st, i, if st.again then Relocking else Gone)
    case Relocking => if st.locked then At(st, i, Gone) else At(st.(locked := true), i, Swapping)
    case Gone => st
  }

  datatype Event = Call | Go(i: nat)

  function Do(st: State, e: Event): State {
    match e
    case Call => st.(pcs := st.pcs + [Calling])
    case Go(i) => if i < |st.pcs| then Step(st, i) else st
  }

  function Run(st: State, events: seq<Event>): State {
    if events == [] then st else Do(Run(st, events[..|events| - 1]), events[|events| - 1])
  }

  // Some goroutine will look at the flag again.
  ghost predicate Watched(st: State) {
    exists i :: 0 <= i < |st.pcs| && !st.pcs[i].Calling? && !st.pcs[i].Gone?
  }

  ghost predicate BeginsSoon(st: State) {
    exists i :: 0 <= i < |st.pcs| && st.pcs[i].Beginning?
  }

  // One goroutine at most holds the lock, and it is held exactly then.
  ghost predicate Exclusive(st: State) {
    && (forall i, j :: 0 <= i < |st.pcs| && 0 <= j < |st.pcs| && Holds(st.pcs[i]) && Holds(st.pcs[j]) ==> i == j)
    && (st.locked <==> exists i :: 0 <= i < |st.pcs| && Holds(st.pcs[i]))
  }

  // A flag that is set will be looked at, and a call not yet followed by a
  // pass left it set or has a pass about to begin.
  ghost predicate Noticed(st: State) {
    && st.begun <= st.stored && (st.again ==> Watched(st))
    && (st.begun < st.stored ==> st.again || BeginsSoon(st))
  }

  ghost predicate Inv(st: State) {
    Exclusive(st) && Noticed(st)
  }

  lemma StepKeepsExclusive(st: State, i: nat)
    requires Exclusive(st) && i < |st.pcs|
    ensures Exclusive(Step(st, i))
  {
    var after := Step(st, i);
    assert forall j :: 0 <= j < |st.pcs| && j != i ==> after.pcs[j] == st.pcs[j];
    if after.locked && !Holds(after.pcs[i]) {
      var j :| 0 <= j < |st.pcs| && Holds(st.pcs[j]);
      assert Holds(after.pcs[j]);
    }
  }

  lemma StepKeepsNoticed(st: State, i: nat)
    requires Inv(st) && i < |st.pcs|
    ensures Noticed(Step(st, i))
  {
    var after := Step(st, i);
    assert forall j :: 0 <= j < |st.pcs| && j != i ==> after.pcs[j] == st.pcs[j];
    if after.pcs[i].Gone? && st.locked {
      var j :| 0 <= j < |st.pcs| && Holds(st.pcs[j]);
      assert j != i ==> Holds(after.pcs[j]);
    }
    if st.begun < st.stored && !st.again {
      var j :| 0 <= j < |st.pcs| && st.pcs[j].Beginning?;
      assert j != i ==> after.pcs[j].Beginning?;
    }
  }

  lemma StepKeeps(st: State, i: nat)
    requires Inv(st) && i < |st.pcs|
    ensures Inv(Step(st, i))
  {
    hide Exclusive, Noticed, Step;
    StepKeepsExclusive(st, i);
    StepKeepsNoticed(st, i);
  }

  lemma DoKeeps(st: State, e: Event)
    requires Inv(st)
    ensures Inv(Do(st, e))
  {
    match e
    case Call =>
      var after := Do(st, e);
      assert forall j :: 0 <= j < |st.pcs| ==> after.pcs[j] == st.pcs[j];
    case Go(i) =>
      if i < |st.pcs| {
        StepKeeps(st, i);
      }
  }

  lemma {:induction false} RunKeeps(events: seq<Event>)
    ensures Inv(Run(QUIET, events))
  {
    hide Inv, Do;
    if events == [] {
      assert Inv(QUIET) by { QuietIsOk(); }
    } else {
      RunKeeps(events[..|events| - 1]);
      DoKeeps(Run(QUIET, events[..|events| - 1]), events[|events| - 1]);
    }
  }

  lemma QuietIsOk()
    ensures Inv(QUIET)
  {
  }

  /** Once every call returned and every goroutine ended, the last pass began
    * after every call. */
  lemma EveryCallIsDelivered(events: seq<Event>)
    ensures var st := Run(QUIET, events);
      (forall i :: 0 <= i < |st.pcs| ==> st.pcs[i].Gone?) ==> st.begun == st.stored && !st.locked
  {
    hide Run;
    RunKeeps(events);
  }

  /** A call not yet followed by a pass always leaves a goroutine at work. */
  lemma PendingIsWatched(events: seq<Event>)
    ensures var st := Run(QUIET, events);
      st.begun < st.stored ==> Watched(st)
  {
    hide Run;
    RunKeeps(events);
  }

  // Without further calls the goroutines end.

  function Rank(again: bool, pc: Pc): nat {
    match pc
    case Calling => 0
    case Trying => 9
    case Swapping => 4
    case Beginning => 6
    case Passing => 5
    case Unlocking => if again then 13 else 3
    case Loading => if again then 12 else 2
    case Relocking => 9
    case Gone => 0
  }

  function Ranks(again: bool, pcs: seq<Pc>): nat {
    if pcs == [] then 0 else Rank(again, pcs[0]) + Ranks(again, pcs[1..])
  }

  function Total(st: State): nat {
    (if st.again then 3 else 0) + Ranks(st.again, st.pcs)
  }

  lemma {:induction false} RankChanges(again: bool, pcs: seq<Pc>, i: nat, pc: Pc)
    requires i < |pcs|
    ensures Ranks(again, pcs[i := pc]) + Rank(again, pcs[i]) == Ranks(again, pcs) + Rank(again, pc)
  {
    if i > 0 {
      assert pcs[i := pc][1..] == pcs[1..][i - 1 := pc];
      RankChanges(again, pcs[1..], i - 1, pc);
    } else {
      assert pcs[i := pc][1..] == pcs[1..];
    }
  }

  lemma {:induction false} RankFalls(pcs: seq<Pc>)
    ensures Ranks(false, pcs) <= Ranks(true, pcs)
  {
    if pcs != [] {
      RankFalls(pcs[1..]);
    }
  }

  lemma StepFalls(st: State, i: nat)
    requires i < |st.pcs| && !st.pcs[i].Calling? && !st.pcs[i].Gone?
    ensures Total(Step(st, i)) < Total(st)
  {
    var after := Step(st, i);
    RankChanges(st.again, st.pcs, i, after.pcs[i]);
    if st.again != after.again {
      RankFalls(after.pcs);
    }
  }

  // Only goroutines that are at work take steps.
  ghost predicate Working(st: State, steps: seq<nat>)
    decreases |steps|
  {
    steps == [] ||
    (steps[0] < |st.pcs| && !st.pcs[steps[0]].Calling? && !st.pcs[steps[0]].Gone? &&
      Working(Step(st, steps[0]), steps[1..]))
  }

  /** Without further calls, the goroutines take at most this many steps. */
  lemma {:induction false} WorkEnds(st: State, steps: seq<nat>)
    requires Working(st, steps)
    ensures |steps| <= Total(st)
    decreases |steps|
  {
    if steps != [] {
      StepFalls(st, steps[0]);
      WorkEnds(Step(st, steps[0]), steps[1..]);
    }
  }
}
