/**
 The heartbeat reactor: a loop that sleeps an adaptive tick, reads how long the connection has been
 silent, and gives up after three intervals. Time is a natural number; sleeps may wake late.
 */
module Heartbeat {
  import opened Results

  /** Silence assumed when LAST_READ was never set: a day, in the unit of time used. */
  const MUST_BE_LOGOUT: nat := 3600 * 24

  /** How one turn of the loop begins: it woke at a time with LAST_READ as it then was, or was told to stop. */
  datatype Turn = Check(at: nat, lastRead: Option<nat>) | ShutdownSignal

  datatype Exit = Expired | ShutDown | StillRunning

  function Elapsed(t: Turn): (e: nat)
    requires t.Check?
  {
    match t.lastRead
    case None => MUST_BE_LOGOUT
    case Some(last) => if t.at >= last then t.at - last else 0
  }

  predicate GivesUp(interval: nat, t: Turn)
  {
    t.Check? && Elapsed(t) > interval * 3
  }

  function NextTick(interval: nat, elapsed: nat): (d: nat)
  {
    if interval > elapsed then interval - elapsed else interval
  }

  /** The first turn from i on that gives up. */
  function FirstExpiry(interval: nat, turns: seq<Turn>, i: nat): (n: nat)
    requires i <= |turns|
    ensures i <= n <= |turns|
    ensures n < |turns| ==> GivesUp(interval, turns[n])
    ensures forall k :: i <= k < n ==> !GivesUp(interval, turns[k])
    decreases |turns| - i
  {
    if i == |turns| || GivesUp(interval, turns[i]) then i else FirstExpiry(interval, turns, i + 1)
  }

  /** Without a last read a check assumes a day of silence: it gives up unless three intervals are longer. */
  lemma NeverRead(interval: nat, at: nat)
    ensures GivesUp(interval, Check(at, None)) <==> 3 * interval < 86400
  {
  }

  /** Otherwise it gives up exactly at more than three intervals of silence. */
  lemma GivesUpIff(interval: nat, at: nat, last: nat)
    ensures GivesUp(interval, Check(at, Some(last))) <==> at > last + 3 * interval
  {
  }

  class Reactor {
    const interval: nat
    /** The delays the loop asked the timer for. */
    var sleeps: seq<nat>

    constructor (interval: nat)
      ensures this.interval == interval && sleeps == []
    {
      this.interval := interval;
      sleeps := [];
    }

    /** `run`, for the turns that happen; it leaves at the first one that makes it. */
    method Run(turns: seq<Turn>) returns (exit: Exit, n: nat)
      modifies this
      ensures n <= |turns|
      ensures forall i :: 0 <= i < n ==> turns[i].Check? && !GivesUp(interval, turns[i])
      ensures match exit
              case StillRunning => n == |turns|
              case Expired => n < |turns| && GivesUp(interval, turns[n])
              case ShutDown => n < |turns| && turns[n] == ShutdownSignal
      ensures exit != ShutDown ==> n == FirstExpiry(interval, turns, 0)
      ensures |sleeps| == |old(sleeps)| + n && sleeps[..|old(sleeps)|] == old(sleeps)
      ensures forall i :: 0 <= i < n ==>
                turns[i].Check? && sleeps[|old(sleeps)| + i] == NextTick(interval, Elapsed(turns[i]))
    {
      n := 0;
      while n < |turns|
        invariant n <= |turns|
        invariant forall i :: 0 <= i < n ==> turns[i].Check? && !GivesUp(interval, turns[i])
        invariant |sleeps| == |old(sleeps)| + n && sleeps[..|old(sleeps)|] == old(sleeps)
        invariant forall i :: 0 <= i < n ==> sleeps[|old(sleeps)| + i] == NextTick(interval, Elapsed(turns[i]))
      {
        if turns[n] == ShutdownSignal {
          return ShutDown, n;
        }
        var elapsed := Elapsed(turns[n]);
        if elapsed > interval * 3 {
          return Expired, n;
        }
        var nextTick := if interval > elapsed then interval - elapsed else interval;
        sleeps := sleeps + [nextTick];
        n := n + 1;
      }
      return StillRunning, n;
    }
  }

  /** Each check follows the sleep the one before asked for, at most `late` late; reads are never in the future. */
  ghost predicate Schedule(interval: nat, late: nat, turns: seq<Turn>)
  {
    && (forall i :: 0 <= i < |turns| ==>
          turns[i].Check? && turns[i].lastRead.Some? && turns[i].lastRead.value <= turns[i].at)
    && (forall i :: 0 < i < |turns| ==>
          var asleep := turns[i - 1].at + NextTick(interval, Elapsed(turns[i - 1]));
          asleep <= turns[i].at <= asleep + late)
  }

  /** From check f on, LAST_READ is that final read, which fell after check f - 1 (the first check is immediate). */
  ghost predicate FinalRead(turns: seq<Turn>, f: nat, last: nat)
  {
    && f < |turns|
    && (forall i :: f <= i < |turns| ==> turns[i].Check? && turns[i].lastRead == Some(last))
    && (if f == 0 then turns[0].at == last else turns[f - 1].Check? && turns[f - 1].at <= last)
  }

  /** Silence grows by at least an interval per check after the first, and by at most an interval and the lateness. */
  lemma SilenceGrows(interval: nat, late: nat, turns: seq<Turn>, f: nat, last: nat, i: nat)
    requires Schedule(interval, late, turns) && FinalRead(turns, f, last)
    requires f <= i && i + 1 < |turns|
    ensures var a, b := Elapsed(turns[i]), Elapsed(turns[i + 1]);
            && (a < interval ==> interval <= b <= interval + late)
            && (a >= interval ==> a + interval <= b <= a + interval + late)
  {
    assert turns[i + 1].at >= turns[i].at + NextTick(interval, Elapsed(turns[i]));
  }

  lemma SilenceIsAge(interval: nat, late: nat, turns: seq<Turn>, f: nat, last: nat)
    requires Schedule(interval, late, turns) && FinalRead(turns, f, last)
    ensures forall i :: f <= i < |turns| ==> turns[i].Check? && Elapsed(turns[i]) == turns[i].at - last
  {
  }

  lemma FirstSilence(interval: nat, late: nat, turns: seq<Turn>, f: nat, last: nat)
    requires Schedule(interval, late, turns) && FinalRead(turns, f, last)
    ensures Elapsed(turns[f]) <= interval + late
  {
    if f > 0 {
      assert turns[f].at <= turns[f - 1].at + NextTick(interval, Elapsed(turns[f - 1])) + late;
    }
  }

  /**
   If it was still running at the final read, the reactor gives up within five further checks, at a silence of more than
   three and at most four intervals and one lateness.
   */
  lemma GivesUpInTime(interval: nat, late: nat, turns: seq<Turn>, f: nat, last: nat)
    requires interval > 0
    requires Schedule(interval, late, turns) && FinalRead(turns, f, last)
    requires forall i :: 0 <= i < f ==> !GivesUp(interval, turns[i])
    requires |turns| >= f + 5
    ensures var n := FirstExpiry(interval, turns, 0);
            && f <= n <= f + 4
            && 3 * interval < turns[n].at - last <= 4 * interval + late
  {
    hide Schedule;
    var n := FirstExpiry(interval, turns, 0);
    assert n >= f;
    FirstSilence(interval, late, turns, f, last);
    SilenceIsAge(interval, late, turns, f, last);
    if n > f + 4 {
      SilenceGrows(interval, late, turns, f, last, f);
      SilenceGrows(interval, late, turns, f, last, f + 1);
      SilenceGrows(interval, late, turns, f, last, f + 2);
      SilenceGrows(interval, late, turns, f, last, f + 3);
    } else if n > f {
      SilenceGrows(interval, late, turns, f, last, n - 1);
      assert !GivesUp(interval, turns[n - 1]);
    }
  }

  /** The interval must be positive for that: with a zero interval the loop can check any number of times. */
  lemma ZeroIntervalSpins(n: nat)
    ensures exists turns: seq<Turn> ::
              && |turns| == n + 1 && Schedule(0, 0, turns) && FinalRead(turns, 0, 0)
              && FirstExpiry(0, turns, 0) == |turns|
  {
    var turns: seq<Turn> := seq(n + 1, i => Check(0, Some(0)));
    assert FinalRead(turns, 0, 0);
    var e := FirstExpiry(0, turns, 0);
    assert e < |turns| ==> GivesUp(0, turns[e]);
  }
}
