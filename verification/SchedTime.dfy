/** Schedule slots and next runs, in whole minutes since the epoch. A time zone
  * gives every minute its offset from UTC. */
module SchedTime {

  import opened Wrappers

  type Zone = int -> int

  const HOUR := 60
  const DAY := 1440
  const GRACE := 5

  // Go's integer division truncates toward zero.
  function Quotient(value: int, divisor: int): int
    requires divisor != 0
  {
    var q := (if value < 0 then -value else value) / (if divisor < 0 then -divisor else divisor);
    if (value < 0) == (divisor < 0) then q else -q
  }

  function FloorDiv(value: int, divisor: int): int
    requires divisor != 0
  {
    var quotient := Quotient(value, divisor);
    if value - quotient * divisor != 0 && (value < 0) != (divisor < 0) then quotient - 1 else quotient
  }

  /** floorDiv rounds down, whatever the signs: the remainder has the divisor's
    * sign and is smaller. */
  lemma FloorDivRoundsDown(value: int, divisor: int)
    requires divisor != 0
    ensures var rest := value - FloorDiv(value, divisor) * divisor;
      if divisor > 0 then 0 <= rest < divisor else divisor < rest <= 0
  {
  }

  function Wall(zone: Zone, m: int): int {
    m + zone(m)
  }

  /** The local date, as a day number, and the local minute of that day. */
  function Date(zone: Zone, m: int): int {
    Wall(zone, m) / DAY
  }

  function TimeOf(zone: Zone, m: int): nat {
    Wall(zone, m) % DAY
  }

  // Sunday is 0; the epoch was a Thursday.
  function Weekday(date: int): nat {
    (date + 4) % 7
  }

  /** Weekdays follow each other, and the first day of 1970 is a Thursday. */
  lemma WeekdaysFollow(date: int)
    ensures Weekday(0) == 4 && Weekday(date) < 7
    ensures Weekday(date + 1) == if Weekday(date) == 6 then 0 else Weekday(date) + 1
  {
  }

  datatype Kind = Recurring | Once

  datatype Input = Input(kind: Kind, time: nat, timezone: string, days: set<nat>, date: int)

  predicate Valid(input: Input) {
    input.time < DAY && (input.kind.Recurring? ==> input.days != {} && forall d :: d in input.days ==> d < 7)
  }

  /** A local minute without its offset. */
  datatype Slot = Slot(date: int, time: nat, timezone: string)

  function ClockSlot(input: Input, zone: Zone, m: int): Option<Slot> {
    if Weekday(Date(zone, m)) in input.days && TimeOf(zone, m) == input.time
    then Some(Slot(Date(zone, m), input.time, input.timezone)) else None
  }

  function OneTimeSlot(input: Input): Slot {
    Slot(input.date, input.time, input.timezone)
  }

  // Zones

  /** Offsets never differ by more than a day. */
  ghost predicate Tame(zone: Zone) {
    forall a, b :: zone(a) - zone(b) <= DAY
  }

  function Sample(zone: Zone, date: int, i: int): int {
    zone(date * DAY + (i * 12 - 24) * HOUR)
  }

  /** Every offset in effect on a date is seen by looking every twelve hours. */
  ghost predicate Sampled(zone: Zone) {
    forall m :: Seen(zone, m)
  }

  predicate Seen(zone: Zone, m: int) {
    exists i :: 0 <= i <= 6 && Sample(zone, Date(zone, m), i) == zone(m)
  }

  /** Offsets between -12 and +14 hours that stay for twelve hours at least. */
  ghost predicate Steady(zone: Zone) {
    && (forall m :: -12 * HOUR <= zone(m) <= 14 * HOUR)
    && (forall m :: Stays(zone, m))
  }

  ghost predicate Stays(zone: Zone, m: int) {
    exists a :: StaysFrom(zone, a, m)
  }

  // The offset at m lasts for twelve hours from a on, and m is among them.
  ghost predicate StaysFrom(zone: Zone, a: int, m: int) {
    a <= m < a + 12 * HOUR && forall k :: a <= k < a + 12 * HOUR ==> zone(k) == zone(m)
  }

  /** Real zones keep both: their clock changes are at least half a day apart. */
  lemma SteadyIsSampled(zone: Zone)
    requires Steady(zone)
    ensures Sampled(zone)
  {
    forall m
      ensures Seen(zone, m)
    {
      assert Stays(zone, m);
      var a :| StaysFrom(zone, a, m);
      var start := Date(zone, m) * DAY;
      assert start <= Wall(zone, m) < start + DAY;
      // The first look at or after a.
      var i := (a - start + 12 * HOUR - 1) / (12 * HOUR) + 2;
      var look := start + (i * 12 - 24) * HOUR;
      assert a <= look < a + 12 * HOUR;
      assert Sample(zone, Date(zone, m), i) == zone(look);
    }
  }

  /** A later date's minute is later, even when clocks fall back between. */
  lemma DatesInOrder(zone: Zone, a: int, b: int)
    requires Tame(zone) && TimeOf(zone, a) == TimeOf(zone, b) && Date(zone, a) < Date(zone, b)
    ensures a < b
  {
  }

  // The candidates of a date

  function Samples(zone: Zone, date: int): set<int> {
    set i | 0 <= i <= 6 :: Sample(zone, date, i)
  }

  method DayOffsets(zone: Zone, date: int) returns (offsets: seq<int>)
    ensures forall o :: o in offsets <==> o in Samples(zone, date)
  {
    offsets := [];
    var h := -24;
    ghost var i := 0;
    while h <= 48
      invariant 0 <= i <= 7 && h == i * 12 - 24
      invariant forall o :: o in offsets <==> exists j :: 0 <= j < i && Sample(zone, date, j) == o
    {
      var offset := zone(date * DAY + h * HOUR);
      assert offset == Sample(zone, date, i);
      if offset !in offsets {
        offsets := offsets + [offset];
      }
      h := h + 12;
      i := i + 1;
    }
  }

  predicate Increasing(s: seq<int>) {
    forall i, j :: 0 <= i < j < |s| ==> s[i] <= s[j]
  }

  function Insert(x: int, s: seq<int>): (r: seq<int>)
    requires Increasing(s)
    ensures Increasing(r) && forall y :: y in r <==> y == x || y in s
  {
    if s == [] || x <= s[0] then [x] + s
    else
      assert s == [s[0]] + s[1..];
      var rest := Insert(x, s[1..]);
      assert forall j :: 0 <= j < |rest| ==> rest[j] in rest;
      [s[0]] + rest
  }

  // sort.Slice
  function Sort(s: seq<int>): (r: seq<int>)
    ensures Increasing(r) && forall y :: y in r <==> y in s
  {
    if s == [] then [] else
      assert s == [s[0]] + s[1..];
      Insert(s[0], Sort(s[1..]))
  }

  /** The minutes from `from` on that could be this wall time. */
  method Candidates(zone: Zone, date: int, time: nat, from: int) returns (candidates: seq<int>)
    ensures Increasing(candidates)
    ensures forall m :: m in candidates <==> m >= from && m >= 0 && date * DAY + time - m in Samples(zone, date)
  {
    var wall := date * DAY + time;
    var offsets := DayOffsets(zone, date);
    var found: seq<int> := [];
    for i := 0 to |offsets|
      invariant forall m :: m in found <==> m >= from && m >= 0 && wall - m in offsets[..i]
    {
      assert offsets[..i + 1] == offsets[..i] + [offsets[i]];
      var candidate := wall - offsets[i];
      if candidate >= from && candidate >= 0 {
        found := found + [candidate];
      }
    }
    assert offsets[..|offsets|] == offsets;
    candidates := Sort(found);
    forall m
      ensures m in candidates <==> m >= from && m >= 0 && wall - m in Samples(zone, date)
    {
      assert wall - m in offsets <==> wall - m in Samples(zone, date);
    }
  }

  // What a minute of this wall time looks like to the search.
  lemma OnDate(zone: Zone, date: int, time: nat, m: int)
    requires time < DAY && Sampled(zone)
    ensures Date(zone, m) == date && TimeOf(zone, m) == time ==> date * DAY + time - m in Samples(zone, date)
  {
    if Date(zone, m) == date && TimeOf(zone, m) == time {
      assert Seen(zone, m);
      var i :| 0 <= i <= 6 && Sample(zone, Date(zone, m), i) == zone(m);
      assert Wall(zone, m) == date * DAY + time;
    }
  }

  // What is smaller than the i-th candidate came before it.
  lemma Found(candidates: seq<int>, i: nat, k: int)
    requires Increasing(candidates) && i <= |candidates| && (i < |candidates| ==> k < candidates[i])
    ensures k in candidates ==> exists j :: 0 <= j < i && candidates[j] == k
  {
  }

  /** A minute at which a one-time schedule's date and time occur. */
  predicate StartsAt(input: Input, zone: Zone, m: int) {
    m >= 0 && Date(zone, m) == input.date && TimeOf(zone, m) == input.time
  }

  predicate FirstStart(input: Input, zone: Zone, m: int) {
    StartsAt(input, zone, m) && forall k :: 0 <= k < m ==> !StartsAt(input, zone, k)
  }

  // The search finds the first start.
  lemma FirstIs(input: Input, zone: Zone, run: Option<int>, m: int)
    requires FirstStart(input, zone, m)
    requires run.Some? ==> FirstStart(input, zone, run.value)
    requires run.None? ==> forall k :: 0 <= k ==> !StartsAt(input, zone, k)
    ensures run == Some(m)
  {
  }

  /** OneTimeRun: the first instant at which the local date and time occur, or
    * none if they never do. */
  method OneTimeRun(input: Input, zone: Zone) returns (run: Option<int>)
    requires input.time < DAY && Sampled(zone)
    ensures run.Some? ==> FirstStart(input, zone, run.value)
    ensures run.None? ==> forall k :: 0 <= k ==> !StartsAt(input, zone, k)
    ensures run.Some? ==> Date(zone, run.value) == input.date && TimeOf(zone, run.value) == input.time
    ensures forall k :: 0 <= k && (run.Some? ==> k < run.value) ==>
      Date(zone, k) != input.date || TimeOf(zone, k) != input.time
  {
    var candidates := Candidates(zone, input.date, input.time, 0);
    for i := 0 to |candidates|
      invariant forall j :: 0 <= j < i ==>
                Date(zone, candidates[j]) != input.date || TimeOf(zone, candidates[j]) != input.time
    {
      var c := candidates[i];
      if Date(zone, c) == input.date && TimeOf(zone, c) == input.time {
        forall k | 0 <= k < c
          ensures Date(zone, k) != input.date || TimeOf(zone, k) != input.time
        {
          OnDate(zone, input.date, input.time, k);
          Found(candidates, i, k);
        }
        assert c in candidates;
        return Some(c);
      }
    }
    forall k | 0 <= k
      ensures Date(zone, k) != input.date || TimeOf(zone, k) != input.time
    {
      OnDate(zone, input.date, input.time, k);
      Found(candidates, |candidates|, k);
    }
    return None;
  }

  /** pendingOneTime: the first start, until its grace period ends. */
  method PendingOneTime(input: Input, zone: Zone, now: int) returns (run: Option<int>)
    requires input.time < DAY && Sampled(zone)
    ensures run.Some? ==> FirstStart(input, zone, run.value) && now < run.value + GRACE
    ensures run.None? ==> forall m :: FirstStart(input, zone, m) ==> m + GRACE <= now
  {
    run := OneTimeRun(input, zone);
    forall m | FirstStart(input, zone, m)
      ensures run == Some(m)
    {
      FirstIs(input, zone, run, m);
    }
    if run.Some? && now >= run.value + GRACE {
      run := None;
    }
  }

  /** A minute at which a recurring schedule is due. */
  predicate Due(input: Input, zone: Zone, lastSlot: Option<Slot>, m: int) {
    ClockSlot(input, zone, m).Some? && ClockSlot(input, zone, m) != lastSlot
  }

  /** It is due at its time on its days, unless the date's slot is used up. */
  lemma DueIs(input: Input, zone: Zone, lastSlot: Option<Slot>, m: int)
    ensures Due(input, zone, lastSlot, m) <==>
            && TimeOf(zone, m) == input.time && Weekday(Date(zone, m)) in input.days
            && lastSlot != Some(Slot(Date(zone, m), input.time, input.timezone))
  {
  }

  // The first due minute of one date.
  method FirstOnDate(input: Input, zone: Zone, lastSlot: Option<Slot>, date: int, from: int) returns (run: Option<int>)
    requires Valid(input) && Sampled(zone) && from >= 0
    ensures run.Some? ==> run.value >= from && Due(input, zone, lastSlot, run.value) && Date(zone, run.value) == date
    ensures run.Some? ==> forall k :: from <= k < run.value && Date(zone, k) == date ==> !Due(input, zone, lastSlot, k)
    ensures run.None? ==> forall k :: from <= k && Date(zone, k) == date ==> !Due(input, zone, lastSlot, k)
  {
    if Weekday(date) !in input.days {
      return None;
    }
    var candidates := Candidates(zone, date, input.time, from);
    for i := 0 to |candidates|
      invariant forall j :: 0 <= j < i && Date(zone, candidates[j]) == date ==>
                !Due(input, zone, lastSlot, candidates[j])
    {
      var c := candidates[i];
      if Date(zone, c) == date && Due(input, zone, lastSlot, c) {
        forall k | from <= k < c && Date(zone, k) == date
          ensures !Due(input, zone, lastSlot, k)
        {
          OnDate(zone, date, input.time, k);
          Found(candidates, i, k);
        }
        assert c in candidates;
        return Some(c);
      }
    }
    forall k | from <= k && Date(zone, k) == date
      ensures !Due(input, zone, lastSlot, k)
    {
      OnDate(zone, date, input.time, k);
      Found(candidates, |candidates|, k);
    }
    return None;
  }

  /** The search of NextRun: the first due minute from now on of all minutes, if
    * there is one by the fourteenth day after today. */
  method NextRecurring(input: Input, zone: Zone, now: int, lastSlot: Option<Slot>) returns (run: Option<int>)
    requires Valid(input) && input.kind.Recurring? && Sampled(zone) && Tame(zone) && now >= 0
    ensures run.Some? ==> run.value >= now && Due(input, zone, lastSlot, run.value)
    ensures run.Some? ==> forall k :: now <= k < run.value ==> !Due(input, zone, lastSlot, k)
    ensures run.None? ==> forall k :: now <= k && Date(zone, k) <= Date(zone, now) + 14 ==>
            !Due(input, zone, lastSlot, k)
  {
    var today := Date(zone, now);
    var offsetDay := -1;
    while offsetDay <= 14
      invariant -1 <= offsetDay <= 15
      invariant forall k :: now <= k && Date(zone, k) < today + offsetDay ==> !Due(input, zone, lastSlot, k)
    {
      var run := FirstOnDate(input, zone, lastSlot, today + offsetDay, now);
      if run.Some? {
        forall k | now <= k < run.value
          ensures !Due(input, zone, lastSlot, k)
        {
          if Date(zone, k) > Date(zone, run.value) && Due(input, zone, lastSlot, k) {
            DatesInOrder(zone, run.value, k);
          }
        }
        return run;
      }
      offsetDay := offsetDay + 1;
    }
    return None;
  }

  /** NextRun: when a schedule is due next. */
  method NextRun(input: Input, zone: Zone, now: int, lastSlot: Option<Slot>) returns (run: Option<int>)
    requires Valid(input) && Sampled(zone) && Tame(zone)
    ensures now < 0 ==> run.None?
    ensures run.Some? && input.kind.Recurring? ==> run.value >= now && Due(input, zone, lastSlot, run.value)
    ensures run.Some? && input.kind.Recurring? ==> forall k :: now <= k < run.value ==> !Due(input, zone, lastSlot, k)
    ensures run.None? && input.kind.Recurring? && now >= 0 ==>
      forall k :: now <= k && Date(zone, k) <= Date(zone, now) + 14 ==> !Due(input, zone, lastSlot, k)
    ensures run.Some? && input.kind.Once? ==>
      lastSlot != Some(OneTimeSlot(input)) && FirstStart(input, zone, run.value) && now < run.value + GRACE
    ensures run.None? && input.kind.Once? && now >= 0 ==>
      lastSlot == Some(OneTimeSlot(input)) || forall m :: FirstStart(input, zone, m) ==> m + GRACE <= now
  {
    if now < 0 {
      return None;
    }
    if input.kind.Once? {
      if Some(OneTimeSlot(input)) == lastSlot {
        return None;
      }
      run := PendingOneTime(input, zone, now);
    } else {
      run := NextRecurring(input, zone, now, lastSlot);
    }
  }

  /** Without clock changes a recurring schedule is always due again within the
    * window of the search. */
  lemma DueAgain(input: Input, zone: Zone, now: int, lastSlot: Option<Slot>) returns (k: int)
    requires Valid(input) && input.kind.Recurring? && forall m :: zone(m) == zone(now)
    ensures now <= k && Date(zone, k) <= Date(zone, now) + 14 && Due(input, zone, lastSlot, k)
  {
    var day :| day in input.days;
    var today := Date(zone, now);
    var date := today + 1 + (day - Weekday(today + 1)) % 7;
    assert Weekday(date) == day;
    k := date * DAY + input.time - zone(now);
    OnThatDate(input, zone, date, k);
    if !Due(input, zone, lastSlot, k) {
      k := k + 7 * DAY;
      OnThatDate(input, zone, date + 7, k);
    }
  }

  lemma OnThatDate(input: Input, zone: Zone, date: int, k: int)
    requires input.time < DAY && k + zone(k) == date * DAY + input.time && Weekday(date) in input.days
    ensures Date(zone, k) == date && ClockSlot(input, zone, k) == Some(Slot(date, input.time, input.timezone))
  {
  }
}
