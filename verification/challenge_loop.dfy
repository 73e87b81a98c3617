/** The timer loop as a schedule of events. Each iteration sleeps out one
    cycle, pinging a warning shortly before its end when the warning window
    fits inside the cycle, and then shifts the challenge window, which in
    turn notifies the broadcaster (with no cycle id). Real time, task
    cancellation and the callbacks' effects are not modelled: only the order
    of the awaited actions and their arguments. */
module ChallengeLoop {
  import opened SnakeGame

  /** One awaited action of the loop. `Sleep` carries the requested number
      of seconds. */
  datatype Event = Sleep(seconds: int) | WarningPing | Shift | Broadcast

  /** The events of one loop iteration for the given settings: its sleeps
      add up to one cycle and it shifts once. */
  function Iteration(s: Settings): (it: seq<Event>)
    ensures TotalSleep(it) == s.cycleLength
    ensures Occurrences(it, Shift) == 1
  {
    if s.cycleLength > s.warningTime then
      var rest := [Sleep(s.warningTime), Shift, Broadcast];
      SleepThenShift(s.warningTime);
      var it := [Sleep(s.cycleLength - s.warningTime), WarningPing] + rest;
      assert it[1..] == [WarningPing] + rest;
      assert ([WarningPing] + rest)[1..] == rest;
      it
    else
      SleepThenShift(s.cycleLength);
      [Sleep(s.cycleLength), Shift, Broadcast]
  }

  /** The events of the first `n` iterations: `n` cycles of sleep and `n`
      shifts. */
  function Schedule(s: Settings, n: nat): (es: seq<Event>)
    ensures TotalSleep(es) == n * s.cycleLength
    ensures Occurrences(es, Shift) == n
  {
    if n == 0 then []
    else
      var before := Schedule(s, n - 1);
      TotalSleepAppend(before, Iteration(s));
      OccurrencesAppend(before, Iteration(s), Shift);
      assert (n - 1) * s.cycleLength + s.cycleLength == n * s.cycleLength;
      before + Iteration(s)
  }

  /** Total seconds of sleep requested by a list of events. */
  function TotalSleep(es: seq<Event>): int
  {
    if es == [] then 0
    else (if es[0].Sleep? then es[0].seconds else 0) + TotalSleep(es[1..])
  }

  /** How many times `e` occurs in a list of events. */
  function Occurrences(es: seq<Event>, e: Event): nat
  {
    if es == [] then 0
    else (if es[0] == e then 1 else 0) + Occurrences(es[1..], e)
  }

  lemma {:induction false} TotalSleepAppend(a: seq<Event>, b: seq<Event>)
    ensures TotalSleep(a + b) == TotalSleep(a) + TotalSleep(b)
    decreases |a|
  {
    if a != [] {
      assert (a + b)[0] == a[0];
      assert (a + b)[1..] == a[1..] + b;
      TotalSleepAppend(a[1..], b);
    } else {
      assert a + b == b;
    }
  }

  lemma {:induction false} OccurrencesAppend(a: seq<Event>, b: seq<Event>, e: Event)
    ensures Occurrences(a + b, e) == Occurrences(a, e) + Occurrences(b, e)
    decreases |a|
  {
    if a != [] {
      assert (a + b)[0] == a[0];
      assert (a + b)[1..] == a[1..] + b;
      OccurrencesAppend(a[1..], b, e);
    } else {
      assert a + b == b;
    }
  }

  /** One iteration: the requested sleeps add up to the cycle length, there
      is exactly one shift and one broadcast, the broadcast directly follows
      the shift and ends the iteration, and the warning fires once exactly
      when the cycle is longer than the warning time, `warningTime` seconds
      of sleep before the shift. */
  lemma IterationShape(s: Settings)
    ensures var it := Iteration(s);
      && TotalSleep(it) == s.cycleLength
      && Occurrences(it, Shift) == 1
      && Occurrences(it, Broadcast) == 1
      && it[|it| - 2] == Shift && it[|it| - 1] == Broadcast
      && Occurrences(it, WarningPing) == (if s.cycleLength > s.warningTime then 1 else 0)
      && (s.cycleLength > s.warningTime ==>
            it[0] == Sleep(s.cycleLength - s.warningTime)
            && it[1] == WarningPing && it[2] == Sleep(s.warningTime))
      && (s.cycleLength <= s.warningTime ==> it[0] == Sleep(s.cycleLength))
  {
    var it := Iteration(s);
    if s.cycleLength > s.warningTime {
      var rest := [Sleep(s.warningTime), Shift, Broadcast];
      SleepThenShift(s.warningTime);
      assert it[1..] == [WarningPing] + rest;
      assert ([WarningPing] + rest)[1..] == rest;
    } else {
      SleepThenShift(s.cycleLength);
    }
  }

  /** The closing part of every iteration: one sleep, the shift, the
      broadcast. */
  lemma SleepThenShift(d: int)
    ensures var es := [Sleep(d), Shift, Broadcast];
      && TotalSleep(es) == d
      && Occurrences(es, Shift) == 1
      && Occurrences(es, Broadcast) == 1
      && Occurrences(es, WarningPing) == 0
  {
    var es := [Sleep(d), Shift, Broadcast];
    var tail := [Shift, Broadcast];
    assert [Broadcast][1..] == [];
    assert TotalSleep([Broadcast]) == 0 && Occurrences([Broadcast], Broadcast) == 1;
    assert tail[1..] == [Broadcast];
    assert TotalSleep(tail) == 0 && Occurrences(tail, Shift) == 1;
    assert es[1..] == tail;
  }

  /** Over `n` iterations the loop requests `n` cycle lengths of sleep,
      shifts and broadcasts `n` times, and warns `n` times or never. */
  lemma {:induction false} ScheduleTotals(s: Settings, n: nat)
    ensures TotalSleep(Schedule(s, n)) == n * s.cycleLength
    ensures Occurrences(Schedule(s, n), Shift) == n
    ensures Occurrences(Schedule(s, n), Broadcast) == n
    ensures Occurrences(Schedule(s, n), WarningPing) == (if s.cycleLength > s.warningTime then n else 0)
  {
    if n > 0 {
      ScheduleTotals(s, n - 1);
      IterationShape(s);
      assert (n - 1) * s.cycleLength + s.cycleLength == n * s.cycleLength;
      TotalSleepAppend(Schedule(s, n - 1), Iteration(s));
      OccurrencesAppend(Schedule(s, n - 1), Iteration(s), Shift);
      OccurrencesAppend(Schedule(s, n - 1), Iteration(s), Broadcast);
      OccurrencesAppend(Schedule(s, n - 1), Iteration(s), WarningPing);
    }
  }

  /** With the default settings a cycle requests 115 seconds of sleep, warns,
      requests 5 more and then shifts; with a 30-second cycle and the default
      warning the warning comes after 25 seconds. */
  lemma DefaultIterations()
    ensures Iteration(DefaultSettings) == [Sleep(115), WarningPing, Sleep(5), Shift, Broadcast]
    ensures Iteration(DefaultSettings.(cycleLength := 30))
         == [Sleep(25), WarningPing, Sleep(5), Shift, Broadcast]
  {
  }
}
