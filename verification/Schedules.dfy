/** Running schedules: which slots are queued, skipped or missed. */
module Schedules {

  import opened Wrappers
  import opened SchedTime

  // What the saved schedule says about its last run.
  datatype Result = Never | QueuedRun | Skipped | Missed | Suspended

  // How the checks before queueing end: an internal failure is no decision.
  datatype Answer = Granted | AccessChanged | Refused | Broken

  /** What a minute's slot is. */
  ghost predicate IsSlot(input: Input, zone: Zone, now: int, slot: Option<Slot>) {
    if now < 0 then slot == None
    else if input.kind.Recurring? then slot == ClockSlot(input, zone, now)
    else slot == if exists m :: FirstStart(input, zone, m) && m <= now < m + GRACE then Some(OneTimeSlot(input))
      else None
  }

  /** Slot. */
  method SlotAt(input: Input, zone: Zone, now: int) returns (slot: Option<Slot>)
    requires Valid(input) && Sampled(zone)
    ensures IsSlot(input, zone, now, slot)
  {
    if now < 0 {
      return None;
    }
    if input.kind.Once? {
      var run := PendingOneTime(input, zone, now);
      forall m | FirstStart(input, zone, m) && run.Some?
        ensures m == run.value
      {
        FirstIs(input, zone, run, m);
      }
      return if run.Some? && now >= run.value then Some(OneTimeSlot(input)) else None;
    }
    return ClockSlot(input, zone, now);
  }

  /** A schedule as one run reads it. */
  datatype Saved = Saved(input: Option<Input>, enabled: bool, revision: nat, lastSlot: Option<Slot>)

  // What a run makes of it: it leaves the schedule, records a result, or uses
  // up a slot.
  datatype Decision = Leave | Note(result: Result) | Use(slot: Slot, result: Result)

  predicate Completed(r: Saved) {
    r.input.Some? && r.input.value.kind.Once? && r.lastSlot == Some(OneTimeSlot(r.input.value))
  }

  // Some start of a one-time schedule is not over yet.
  ghost predicate StillAhead(input: Input, zone: Zone, now: int) {
    exists m :: FirstStart(input, zone, m) && now < m + GRACE
  }

  ghost predicate Decides(r: Saved, zone: Zone, now: int, answer: Answer, d: Decision) {
    if r.input.None? then d == Note(Suspended)
    else if !r.enabled || Completed(r) then d == Leave
    else
      var input := r.input.value;
      exists slot :: IsSlot(input, zone, now, slot) && d == (
        if slot.None? && input.kind.Once? then
          if StillAhead(input, zone, now) then Leave else Use(OneTimeSlot(input), Missed)
        else if slot.None? || slot == r.lastSlot then Leave
        else match answer
          case Granted => Use(slot.value, QueuedRun)
          case Refused => Use(slot.value, Skipped)
          case _ => Leave)
  }

  /** A saved schedule and what it queued. */
  class Schedule {
    var input: Option<Input>
    var enabled: bool
    var revision: nat
    var lastSlot: Option<Slot>
    var lastResult: Result
    // The slots that were used up, and those of them an operation was queued
    // for, with the minute.
    ghost var consumed: seq<Slot>
    ghost var queued: seq<(Slot, int)>
    const zone: Zone

    constructor (input: Option<Input>, zone: Zone)
      ensures this.input == input && this.zone == zone && enabled && lastSlot == None && consumed == [] && queued == []
    {
      this.input, this.zone, enabled, revision := input, zone, true, 0;
      lastSlot, lastResult, consumed, queued := None, Never, [], [];
    }

    ghost predicate Reads(r: Saved)
      reads this
    {
      r.revision <= revision && (r.revision == revision ==> r == Saved(input, enabled, revision, lastSlot))
    }

    twostate predicate Used(slot: Slot, result: Result, now: int)
      reads this
    {
      && lastSlot == Some(slot) && lastResult == result && consumed == old(consumed) + [slot]
      && queued == old(queued) + if result.QueuedRun? then [(slot, now)] else []
    }

    // The update that uses up a slot; it finds nothing when the schedule was
    // edited since it was read.
    method Consume(r: Saved, now: int, slot: Slot, result: Result)
      modifies this`lastSlot, this`lastResult, this`consumed, this`queued
      ensures r.revision != revision ==> unchanged(this)
      ensures r.revision == revision ==> Used(slot, result, now)
    {
      if r.revision == revision {
        lastSlot, lastResult, consumed := Some(slot), result, consumed + [slot];
        if result.QueuedRun? {
          queued := queued + [(slot, now)];
        }
      }
    }

    /** runOne, on a schedule read earlier. An operation is queued, or a slot
      * recorded as skipped or missed, only if no edit came between. */
    method RunOne(r: Saved, now: int, answer: Answer) returns (ghost d: Decision)
      requires Reads(r) && (r.input.Some? ==> Valid(r.input.value)) && Sampled(zone)
      modifies this`lastSlot, this`lastResult, this`consumed, this`queued
      ensures Decides(r, zone, now, answer, d)
      ensures r.revision != revision || d.Leave? ==> unchanged(this)
      ensures d.Note? ==> lastSlot == old(lastSlot) && consumed == old(consumed) && queued == old(queued)
      ensures r.revision == revision && d.Note? ==> lastResult == d.result
      ensures r.revision == revision && d.Use? ==> Used(d.slot, d.result, now)
    {
      if r.input.None? {
        if r.revision == revision {
          lastResult := Suspended;
        }
        return Note(Suspended);
      }
      var input := r.input.value;
      if !r.enabled || (input.kind.Once? && r.lastSlot == Some(OneTimeSlot(input))) {
        return Leave;
      }
      var slot := SlotAt(input, zone, now);
      if input.kind.Once? && slot.None? {
        var run := PendingOneTime(input, zone, now);
        if run.Some? {
          return Leave;
        }
        Consume(r, now, OneTimeSlot(input), Missed);
        return Use(OneTimeSlot(input), Missed);
      }
      if slot.None? || slot == r.lastSlot || answer.AccessChanged? || answer.Broken? {
        return Leave;
      }
      var result := if answer.Granted? then QueuedRun else Skipped;
      Consume(r, now, slot.value, result);
      return Use(slot.value, result);
    }
  }

  // Slots of one schedule on later and later dates.
  ghost predicate Later(slots: seq<Slot>) {
    forall i, j :: 0 <= i < j < |slots| ==> slots[i].date < slots[j].date
  }

  ghost predicate QueuedOk(consumed: seq<Slot>, queued: seq<(Slot, int)>) {
    && (forall i :: 0 <= i < |queued| ==> queued[i].0 in consumed)
    && (forall i, j :: 0 <= i < j < |queued| ==> queued[i].0.date < queued[j].0.date)
  }

  // A run decided to use up a slot of a recurring schedule.
  lemma UseIsNew(r: Saved, zone: Zone, now: int, answer: Answer, d: Decision, last: int)
    requires Decides(r, zone, now, answer, d) && d.Use? && r.input.Some? && r.input.value.kind.Recurring? && Tame(zone)
    requires last <= now && (r.lastSlot.Some? ==> ClockSlot(r.input.value, zone, last) == r.lastSlot)
    ensures ClockSlot(r.input.value, zone, now) == Some(d.slot) && !d.result.Missed?
    ensures r.lastSlot.Some? ==> r.lastSlot.value.date < d.slot.date
  {
  }

  lemma NothingUsed()
    ensures Later([]) && QueuedOk([], [])
  {
  }

  // A slot after the last one keeps the order, whether it is queued or not.
  lemma UsedLater(consumed: seq<Slot>, queued: seq<(Slot, int)>, slot: Slot, now: int)
    requires Later(consumed) && QueuedOk(consumed, queued)
    requires consumed != [] ==> consumed[|consumed| - 1].date < slot.date
    ensures Later(consumed + [slot]) && QueuedOk(consumed + [slot], queued)
    ensures QueuedOk(consumed + [slot], queued + [(slot, now)])
  {
  }

  // A due slot that is used up, or was used up last.
  ghost predicate Handled(s: Schedule, input: Input, now: int)
    reads s
  {
    var slot := ClockSlot(input, s.zone, now);
    slot.Some? && now >= 0 ==> slot.value in s.consumed
  }

  // What a run decides for a due slot.
  lemma DecidesFor(r: Saved, zone: Zone, now: int, answer: Answer, d: Decision)
    requires Decides(r, zone, now, answer, d) && r.input.Some? && r.input.value.kind.Recurring?
    ensures !r.enabled ==> d.Leave?
    ensures !d.Note? && (d.Use? && answer.Granted? ==> d.result.QueuedRun?)
    ensures r.enabled && answer in {Granted, Refused} && now >= 0 ==>
              var slot := ClockSlot(r.input.value, zone, now);
              slot.Some? && slot != r.lastSlot ==> d.Use? && d.slot == slot.value
  {
  }

  /** Runs of a recurring schedule at later and later instants use up every
    * slot at most once, each in its own local minute, although only the last
    * slot is remembered and clocks may fall back. An enabled schedule misses no
    * slot in whose minute a run gets an answer, and queues each of them if every
    * answer is a grant. */
  method RunAll(s: Schedule, input: Input, times: seq<int>, answers: seq<Answer>)
    requires |answers| == |times| && forall i, j :: 0 <= i < j < |times| ==> times[i] <= times[j]
    requires s.input == Some(input) && Valid(input) && input.kind.Recurring? && Sampled(s.zone) && Tame(s.zone)
    requires s.lastSlot == None && s.consumed == [] && s.queued == []
    modifies s
    ensures Later(s.consumed) && QueuedOk(s.consumed, s.queued)
    ensures forall i :: 0 <= i < |s.queued| ==>
            s.queued[i].1 in times && ClockSlot(input, s.zone, s.queued[i].1) == Some(s.queued[i].0)
    ensures old(s.enabled) ==>
      forall i :: 0 <= i < |times| && answers[i] in {Granted, Refused} ==> Handled(s, input, times[i])
    ensures (forall i :: 0 <= i < |times| ==> answers[i] == Granted) ==> |s.queued| == |s.consumed|
    ensures !old(s.enabled) ==> s.consumed == []
  {
    hide Decides, Sampled, Tame, Later, QueuedOk, ClockSlot;
    ghost var last := if times == [] then 0 else times[0];
    assert Later([]) && QueuedOk([], []) by { NothingUsed(); }
    for i := 0 to |times|
      invariant s.input == Some(input) && Later(s.consumed) && QueuedOk(s.consumed, s.queued)
      invariant s.lastSlot == if s.consumed == [] then None else Some(s.consumed[|s.consumed| - 1])
      invariant i < |times| ==> last <= times[i]
      invariant s.lastSlot.Some? ==> ClockSlot(input, s.zone, last) == s.lastSlot
      invariant forall j :: 0 <= j < |s.queued| ==>
                s.queued[j].1 in times && ClockSlot(input, s.zone, s.queued[j].1) == Some(s.queued[j].0)
      invariant s.enabled == old(s.enabled) && (!s.enabled ==> s.consumed == [])
      invariant s.enabled ==> forall j :: 0 <= j < i && answers[j] in {Granted, Refused} ==> Handled(s, input, times[j])
      invariant (forall j :: 0 <= j < i ==> answers[j] == Granted) ==> |s.queued| == |s.consumed|
    {
      ghost var consumed, queued := s.consumed, s.queued;
      var r := Saved(s.input, s.enabled, s.revision, s.lastSlot);
      ghost var d := s.RunOne(r, times[i], answers[i]);
      DecidesFor(r, s.zone, times[i], answers[i], d);
      if d.Use? {
        UseIsNew(r, s.zone, times[i], answers[i], d, last);
        UsedLater(consumed, queued, d.slot, times[i]);
        assert queued + [] == queued;
        last := times[i];
      }
    }
  }

  ghost predicate InTime(input: Input, zone: Zone, q: (Slot, int)) {
    q.0 == OneTimeSlot(input) && exists m :: FirstStart(input, zone, m) && m <= q.1 < m + GRACE
  }

  // A run at this instant must use up a one-time schedule.
  ghost predicate Decisive(input: Input, zone: Zone, now: int, answer: Answer) {
    now >= 0 && forall m :: FirstStart(input, zone, m) ==>
      now >= m + 5 || (m <= now && answer in {Granted, Refused})
  }

  lemma OneFirst(input: Input, zone: Zone, m: int, k: int)
    requires FirstStart(input, zone, m) && FirstStart(input, zone, k)
    ensures m == k
  {
  }

  lemma OnceDecides(r: Saved, zone: Zone, now: int, answer: Answer, d: Decision)
    requires Decides(r, zone, now, answer, d) && r.input.Some? && r.input.value.kind.Once?
    ensures !r.enabled || r.lastSlot == Some(OneTimeSlot(r.input.value)) ==> d.Leave?
    ensures r.enabled && r.lastSlot == None && Decisive(r.input.value, zone, now, answer) ==> d.Use?
    ensures r.enabled && r.lastSlot == None && answer.Granted? ==>
      forall m :: FirstStart(r.input.value, zone, m) && m <= now < m + 5 ==> d.Use? && d.result.QueuedRun?
  {
    var input := r.input.value;
    forall m, k | FirstStart(input, zone, m) && FirstStart(input, zone, k)
      ensures m == k
    {
      OneFirst(input, zone, m, k);
    }
  }

  /** A one-time schedule is used up at most once, and queued only in the five
    * minutes from its first start. An enabled one is used up by the first run that
    * gets an answer in these minutes, and by any run after them or if there is no
    * such start; it is queued if that run is in time and granted. */
  method RunOnce(s: Schedule, input: Input, times: seq<int>, answers: seq<Answer>)
    requires |answers| == |times|
    requires s.input == Some(input) && Valid(input) && input.kind.Once? && Sampled(s.zone)
    requires s.lastSlot == None && s.consumed == [] && s.queued == []
    modifies s
    ensures |s.queued| <= |s.consumed| <= 1
    ensures forall q :: q in s.queued ==> InTime(input, s.zone, q)
    ensures old(s.enabled) ==> forall i :: 0 <= i < |times| && Decisive(input, s.zone, times[i], answers[i]) ==>
      s.consumed != []
    ensures old(s.enabled) && times != [] && answers[0] == Granted ==>
      forall m :: FirstStart(input, s.zone, m) && m <= times[0] < m + 5 ==> |s.queued| == 1
    ensures !old(s.enabled) ==> s.consumed == []
  {
    for i := 0 to |times|
      invariant s.input == Some(input) && |s.queued| <= |s.consumed| <= 1
      invariant s.consumed != [] ==> s.lastSlot == Some(OneTimeSlot(input))
      invariant s.consumed == [] ==> s.queued == [] && s.lastSlot == None
      invariant i == 0 ==> s.consumed == []
      invariant forall q :: q in s.queued ==> InTime(input, s.zone, q)
      invariant s.enabled == old(s.enabled) && (!s.enabled ==> s.consumed == [])
      invariant s.enabled ==> forall j :: 0 <= j < i && Decisive(input, s.zone, times[j], answers[j]) ==>
        s.consumed != []
      invariant s.enabled && i > 0 && answers[0] == Granted ==>
        forall m :: FirstStart(input, s.zone, m) && m <= times[0] < m + 5 ==> |s.queued| == 1
    {
      var r := Saved(s.input, s.enabled, s.revision, s.lastSlot);
      ghost var d := s.RunOne(r, times[i], answers[i]);
      OnceDecides(r, s.zone, times[i], answers[i], d);
    }
  }
}
