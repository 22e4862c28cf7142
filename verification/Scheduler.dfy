/**
 Recurring jobs. Each entry runs when its time has come and moves to the next slot
 strictly after now, skipping the slots it missed.

 Slots stay on the grid that starts at registration, whatever times the scheduler is
 ticked at, and a job runs once for each tick that reaches a slot beyond all earlier ones.
 */
module Schedulers {
  import opened Common

  type Time = int
  type Job = nat

  datatype Outcome = Done | Failed(message: string)

  datatype Entry = Entry(name: string, interval: int, nextRun: Time, job: Job)

  // ---- Slots -----------------------------------------------------------------------------

  /** The number of whole intervals from `start` to `t`, rounded down. */
  function SlotAt(start: Time, interval: int, t: Time): int
    requires interval > 0
  {
    (t - start) / interval
  }

  /** The first slot strictly after `now`, counting from `start`. */
  function SlotAfter(start: Time, interval: int, now: Time): Time
    requires interval > 0
  {
    start + (SlotAt(start, interval, now) + 1) * interval
  }

  lemma SlotIs(start: Time, interval: int, t: Time, k: int)
    requires interval > 0
    ensures SlotAt(start, interval, t) >= k <==> start + k * interval <= t
  {
    var d := t - start;
    var q := d / interval;
    assert d == q * interval + d % interval;
    if q >= k {
      assert q * interval >= k * interval;
    } else {
      assert k * interval >= (q + 1) * interval;
      assert (q + 1) * interval == q * interval + interval;
    }
  }

  lemma SlotAfterIsNext(start: Time, interval: int, now: Time)
    requires interval > 0
    ensures SlotAfter(start, interval, now) - interval <= now < SlotAfter(start, interval, now)
  {
    var q := SlotAt(start, interval, now);
    SlotIs(start, interval, now, q);
    SlotIs(start, interval, now, q + 1);
    assert (q + 1) * interval == q * interval + interval;
  }

  /** Counting from one slot or from another on its grid gives the same slots. */
  lemma GridShift(start: Time, interval: int, k: int, now: Time)
    requires interval > 0
    ensures SlotAfter(start + k * interval, interval, now) == SlotAfter(start, interval, now)
  {
    var shifted, q := start + k * interval, SlotAt(start, interval, now);
    SlotIs(start, interval, now, q);
    SlotIs(start, interval, now, q + 1);
    assert (q - k) * interval == q * interval - k * interval;
    assert (q + 1 - k) * interval == (q + 1) * interval - k * interval;
    SlotIs(shifted, interval, now, q - k);
    SlotIs(shifted, interval, now, q + 1 - k);
    assert SlotAt(shifted, interval, now) == q - k;
  }

  /** The loop ends for no due entry whose interval is not positive: no number of steps passes `now`. */
  lemma AdvanceEndsIffPositive(nextRun: Time, interval: int, now: Time)
    requires nextRun <= now
    ensures (exists k: nat :: nextRun + k * interval > now) <==> interval > 0
  {
    if interval > 0 {
      var k := now - nextRun + 1;
      assert nextRun + k * interval > now;
    } else {
      forall k: nat ensures nextRun + k * interval <= now {
      }
    }
  }

  /** Adds intervals until the time is after `now`; None stands for a loop that does not end. */
  method Advance(nextRun: Time, interval: int, now: Time) returns (r: Option<Time>)
    requires nextRun <= now
    ensures r.Some? <==> exists k: nat :: nextRun + k * interval > now
    ensures r.Some? ==> interval > 0 && r.value == SlotAfter(nextRun, interval, now)
    ensures r.Some? ==> r.value - interval <= now < r.value && exists k: nat :: r.value == nextRun + k * interval
  {
    AdvanceEndsIffPositive(nextRun, interval, now);
    if interval <= 0 {
      return None;
    }
    var next := nextRun + interval;
    ghost var k := 1;
    while next <= now
      invariant next == nextRun + k * interval && next - interval <= now
      decreases now - next
    {
      next := next + interval;
      assert (k + 1) * interval == k * interval + interval;
      k := k + 1;
    }
    assert (k - 1) * interval == k * interval - interval;
    SlotIs(nextRun, interval, now, k - 1);
    SlotIs(nextRun, interval, now, k);
    return Some(next);
  }

  // ---- One entry -----------------------------------------------------------------------------

  predicate Due(e: Entry, now: Time) {
    e.nextRun <= now
  }

  function Rescheduled(e: Entry, now: Time): Entry
    requires Due(e, now) ==> e.interval > 0
  {
    if Due(e, now) then e.(nextRun := SlotAfter(e.nextRun, e.interval, now)) else e
  }

  /** The entries that are due have positive intervals; for others the catch-up loop does not end. */
  predicate DuePositive(entries: seq<Entry>, now: Time) {
    forall i :: 0 <= i < |entries| && Due(entries[i], now) ==> entries[i].interval > 0
  }

  // ---- The scheduler ----------------------------------------------------------------------------

  function DueNames(entries: seq<Entry>, now: Time): seq<string> {
    if entries == [] then []
    else
      var last := entries[|entries| - 1];
      DueNames(entries[..|entries| - 1], now) + if Due(last, now) then [last.name] else []
  }

  function Results(entries: seq<Entry>, now: Time, run: Job -> Outcome): seq<(string, Outcome)> {
    if entries == [] then []
    else
      var last := entries[|entries| - 1];
      Results(entries[..|entries| - 1], now, run) + if Due(last, now) then [(last.name, run(last.job))] else []
  }

  class Scheduler {
    var entries: seq<Entry>

    constructor ()
      ensures entries == []
    {
      entries := [];
    }

    method Every(name: string, interval: int, now: Time, job: Job)
      modifies this
      ensures entries == old(entries) + [Entry(name, interval, now + interval, job)]
    {
      entries := entries + [Entry(name, interval, now + interval, job)];
    }

    method NamesDue(now: Time) returns (names: seq<string>)
      ensures names == DueNames(entries, now)
    {
      names := [];
      for i := 0 to |entries|
        invariant names == DueNames(entries[..i], now)
      {
        assert entries[..i + 1][..i] == entries[..i];
        if entries[i].nextRun <= now {
          names := names + [entries[i].name];
        }
      }
      assert entries[..|entries|] == entries;
    }

    /** Runs every job that is due and moves each to its next slot; None stands for a tick that does not end. */
    method Tick(now: Time, run: Job -> Outcome) returns (r: Option<seq<(string, Outcome)>>)
      modifies this
      ensures r.Some? <==> DuePositive(old(entries), now)
      ensures r.Some? ==> r.value == Results(old(entries), now, run) && |entries| == |old(entries)|
      ensures r.Some? ==> forall i :: 0 <= i < |entries| ==> entries[i] == Rescheduled(old(entries)[i], now)
    {
      var results := [];
      ghost var before := entries;
      for i := 0 to |entries|
        invariant |entries| == |before| && DuePositive(before[..i], now)
        invariant results == Results(before[..i], now, run)
        invariant forall k :: 0 <= k < i ==>
          (Due(before[k], now) ==> before[k].interval > 0) && entries[k] == Rescheduled(before[k], now)
        invariant forall k :: i <= k < |entries| ==> entries[k] == before[k]
      {
        var e := entries[i];
        assert e == before[i] && before[..i + 1][..i] == before[..i];
        if e.nextRun <= now {
          var outcome := run(e.job);
          var next := Advance(e.nextRun, e.interval, now);
          if next.None? {
            AdvanceEndsIffPositive(e.nextRun, e.interval, now);
            return None;
          }
          entries := entries[i := e.(nextRun := next.value)];
          results := results + [(e.name, outcome)];
        }
      }
      assert before[..|before|] == before;
      return Some(results);
    }
  }

  /** The jobs a tick runs are those named as due, in order. */
  lemma {:induction false} TickRunsWhatIsDue(entries: seq<Entry>, now: Time, run: Job -> Outcome)
    ensures var results, names := Results(entries, now, run), DueNames(entries, now);
            |results| == |names| && forall i :: 0 <= i < |names| ==> results[i].0 == names[i]
  {
    if entries != [] {
      TickRunsWhatIsDue(entries[..|entries| - 1], now, run);
    }
  }

  /** These are the entries whose time has come, in order of registration. */
  ghost predicate AreDue(entries: seq<Entry>, now: Time, due: seq<nat>) {
    && (forall j, k :: 0 <= j < k < |due| ==> due[j] < due[k])
    && (forall i: nat :: i in due <==> i < |entries| && entries[i].nextRun <= now)
  }

  ghost predicate OutcomeOf(entries: seq<Entry>, i: nat, run: Job -> Outcome, result: (string, Outcome)) {
    i < |entries| && result == (entries[i].name, run(entries[i].job))
  }

  /** A tick's results are the outcomes of the jobs registered with the due entries, under their names. */
  lemma {:induction false} ResultsAreOutcomes(entries: seq<Entry>, now: Time, run: Job -> Outcome)
    returns (due: seq<nat>)
    ensures AreDue(entries, now, due)
    ensures var results, names := Results(entries, now, run), DueNames(entries, now);
            && |results| == |names| == |due|
            && forall k :: 0 <= k < |due| ==> OutcomeOf(entries, due[k], run, results[k]) && names[k] == results[k].0
  {
    due := [];
    if entries != [] {
      var n := |entries| - 1;
      due := ResultsAreOutcomes(entries[..n], now, run);
      if entries[n].nextRun <= now {
        DueSnoc(entries, now, due);
        due := due + [n];
      }
    }
  }

  lemma DueSnoc(entries: seq<Entry>, now: Time, due: seq<nat>)
    requires entries != [] && AreDue(entries[..|entries| - 1], now, due) && entries[|entries| - 1].nextRun <= now
    ensures AreDue(entries, now, due + [|entries| - 1])
  {
    var n := |entries| - 1;
    forall k | 0 <= k < |due| ensures due[k] < n {
      assert due[k] in due;
    }
    forall i: nat ensures i in due + [n] <==> i in due || i == n {
    }
  }

  /** An entry keeps its name, interval and job; a due one moves on by whole intervals to the first time after now. */
  lemma RescheduledIs(e: Entry, now: Time)
    requires e.nextRun <= now ==> e.interval > 0
    ensures var r := Rescheduled(e, now);
            && r.name == e.name && r.interval == e.interval && r.job == e.job
            && (e.nextRun > now ==> r.nextRun == e.nextRun)
            && (e.nextRun <= now ==> r.nextRun - e.interval <= now < r.nextRun)
            && (exists k: nat :: r.nextRun == e.nextRun + k * e.interval)
  {
    if e.nextRun <= now {
      var q := SlotAt(e.nextRun, e.interval, now);
      SlotAfterIsNext(e.nextRun, e.interval, now);
      SlotIs(e.nextRun, e.interval, now, 0);
      var k: nat := q + 1;
      assert Rescheduled(e, now).nextRun == e.nextRun + k * e.interval;
    } else {
      assert Rescheduled(e, now).nextRun == e.nextRun + 0 * e.interval;
    }
  }

  // ---- Whole runs of ticks ------------------------------------------------------------------------

  /** The entry after ticks at these times, in this order. */
  function AfterTicks(e: Entry, ticks: seq<Time>): (r: Entry)
    requires e.interval > 0
    ensures r.interval == e.interval
  {
    if ticks == [] then e else Rescheduled(AfterTicks(e, ticks[..|ticks| - 1]), ticks[|ticks| - 1])
  }

  /** How many of the ticks run the job. */
  function RunCount(e: Entry, ticks: seq<Time>): nat
    requires e.interval > 0
  {
    if ticks == [] then 0
    else
      var front, now := ticks[..|ticks| - 1], ticks[|ticks| - 1];
      RunCount(e, front) + if Due(AfterTicks(e, front), now) then 1 else 0
  }

  /** The furthest slot any tick reached; slot 0 is the registration. */
  function Furthest(start: Time, interval: int, ticks: seq<Time>): nat
    requires interval > 0
  {
    if ticks == [] then 0
    else
      var before, slot := Furthest(start, interval, ticks[..|ticks| - 1]), SlotAt(start, interval, ticks[|ticks| - 1]);
      if slot > before then slot else before
  }

  /** How many ticks reached further than all ticks before them. */
  function Advances(start: Time, interval: int, ticks: seq<Time>): nat
    requires interval > 0
  {
    if ticks == [] then 0
    else
      var front := ticks[..|ticks| - 1];
      Advances(start, interval, front)
      + if SlotAt(start, interval, ticks[|ticks| - 1]) > Furthest(start, interval, front) then 1 else 0
  }

  function Registered(name: string, interval: int, start: Time, job: Job): Entry {
    Entry(name, interval, start + interval, job)
  }

  /**
   After any ticks, in any order, the entry waits for the slot after the furthest
   one reached, and has run once per tick that reached further.
   */
  lemma {:induction false} EntryFollowsTicks(name: string, interval: int, start: Time, job: Job, ticks: seq<Time>)
    requires interval > 0
    ensures var e := Registered(name, interval, start, job);
            && AfterTicks(e, ticks) == e.(nextRun := start + (Furthest(start, interval, ticks) + 1) * interval)
            && RunCount(e, ticks) == Advances(start, interval, ticks)
            && RunCount(e, ticks) <= Furthest(start, interval, ticks)
  {
    if ticks != [] {
      var front, now := ticks[..|ticks| - 1], ticks[|ticks| - 1];
      EntryFollowsTicks(name, interval, start, job, front);
      var k := Furthest(start, interval, front) + 1;
      SlotIs(start, interval, now, k);
      GridShift(start, interval, k, now);
    }
  }

  predicate NonDecreasing(ticks: seq<Time>) {
    forall i, j :: 0 <= i < j < |ticks| ==> ticks[i] <= ticks[j]
  }

  lemma {:induction false} LastIsFurthest(start: Time, interval: int, ticks: seq<Time>)
    requires interval > 0 && NonDecreasing(ticks) && ticks != [] && start <= ticks[0]
    ensures Furthest(start, interval, ticks) == SlotAt(start, interval, ticks[|ticks| - 1])
  {
    var front, now := ticks[..|ticks| - 1], ticks[|ticks| - 1];
    SlotIs(start, interval, now, 0);
    if front != [] {
      LastIsFurthest(start, interval, front);
      var before := ticks[|ticks| - 2];
      var q := SlotAt(start, interval, before);
      SlotIs(start, interval, before, q);
      SlotIs(start, interval, now, q);
    }
  }

  /** With time moving forward, the next run is the first slot after the last tick. */
  lemma NextRunIsNextSlot(name: string, interval: int, start: Time, job: Job, ticks: seq<Time>)
    requires interval > 0 && NonDecreasing(ticks) && ticks != [] && start <= ticks[0]
    ensures var now, next := ticks[|ticks| - 1], AfterTicks(Registered(name, interval, start, job), ticks).nextRun;
            next == SlotAfter(start, interval, now) && next - interval <= now < next
  {
    EntryFollowsTicks(name, interval, start, job, ticks);
    LastIsFurthest(start, interval, ticks);
    SlotAfterIsNext(start, interval, ticks[|ticks| - 1]);
  }
}
