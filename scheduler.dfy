/** The timing decisions of one iteration of the window's fixed-timestep loop: whether the
    game update and the draw run, where their deadlines move, and how long the loop sleeps.
    Tick counts are C# `uint`s (milliseconds since start-up); deadlines wrap modulo 2^32. */
module Scheduler {
  import opened Basics

  /** A job (update or draw) runs when the tick count is past its deadline, or on every
      iteration when its rate is 0. */
  predicate Due(ticks: uint32, deadline: uint32, rate: uint32)
  {
    ticks > deadline || rate == 0
  }

  /** The deadline after an iteration at `ticks`: `ticks + rate` in `uint` arithmetic when the
      job ran, otherwise unchanged. */
  function NextDeadline(ticks: uint32, deadline: uint32, rate: uint32): (r: uint32)
    ensures Due(ticks, deadline, rate) && ticks + rate < TWO_32 ==> r == ticks + rate
    ensures !Due(ticks, deadline, rate) ==> r == deadline
  {
    if Due(ticks, deadline, rate) then WrapU32(ticks + rate) else deadline
  }

  /** The sleep at the end of an iteration, read at tick `now`: none when both rates are 0,
      otherwise until the earlier deadline, and only when that lies in the future. */
  function SleepTime(nextGame: uint32, nextVideo: uint32, gameRate: uint32, videoRate: uint32,
                     now: uint32): (r: Option<uint32>)
    ensures r.Some? <==> (gameRate > 0 || videoRate > 0) && now < nextGame && now < nextVideo
    ensures r.Some? ==> 0 < r.value && now + r.value <= nextGame && now + r.value <= nextVideo
    ensures r.Some? ==> now + r.value == nextGame || now + r.value == nextVideo
  {
    if videoRate <= 0 && gameRate <= 0 then None
    else
      var updateTicks := Min(nextGame, nextVideo) - now;
      if updateTicks > 0 then Some(updateTicks) else None
  }

  /** The deadline of one job after iterations at the given tick counts. */
  function DeadlineAfter(deadline: uint32, rate: uint32, ticks: seq<uint32>): uint32
  {
    if ticks == [] then deadline
    else NextDeadline(Last(ticks), DeadlineAfter(deadline, rate, DropLast(ticks)), rate)
  }

  /** The tick counts of the iterations in which the job ran. */
  function RunTicks(deadline: uint32, rate: uint32, ticks: seq<uint32>): (r: seq<uint32>)
    ensures |r| <= |ticks|
  {
    if ticks == [] then []
    else
      var prefix := DropLast(ticks);
      RunTicks(deadline, rate, prefix)
      + (if Due(Last(ticks), DeadlineAfter(deadline, rate, prefix), rate) then [Last(ticks)] else [])
  }

  predicate NoWrap(rate: uint32, ticks: seq<uint32>)
  {
    forall i | 0 <= i < |ticks| :: ticks[i] + rate < TWO_32
  }

  /** Consecutive runs are more than `rate` ticks apart. */
  predicate SpacedBy(runs: seq<uint32>, rate: uint32)
  {
    forall i | 0 < i < |runs| :: runs[i] > runs[i - 1] + rate
  }

  /** With a positive rate and no wrap-around, the job never runs again until MORE than
      `rate` ticks have passed since its last run (the test is `ticks > deadline`, so the
      earliest next run is `rate + 1` ticks later), its first run comes after the initial
      deadline, and the current deadline is `rate` ticks after the last run. */
  lemma {:induction false} RunsSpaced(deadline: uint32, rate: uint32, ticks: seq<uint32>)
    requires 0 < rate && NoWrap(rate, ticks)
    ensures SpacedBy(RunTicks(deadline, rate, ticks), rate)
    ensures RunTicks(deadline, rate, ticks) != [] ==>
      RunTicks(deadline, rate, ticks)[0] > deadline &&
      DeadlineAfter(deadline, rate, ticks) == Last(RunTicks(deadline, rate, ticks)) + rate
    ensures RunTicks(deadline, rate, ticks) == [] ==> DeadlineAfter(deadline, rate, ticks) == deadline
  {
    if ticks != [] {
      var prefix := DropLast(ticks);
      assert NoWrap(rate, prefix) by {
        forall i | 0 <= i < |prefix| ensures prefix[i] + rate < TWO_32 {
          assert prefix[i] == ticks[i];
        }
      }
      RunsSpaced(deadline, rate, prefix);
      var before := RunTicks(deadline, rate, prefix);
      if Due(Last(ticks), DeadlineAfter(deadline, rate, prefix), rate) {
        var runs := before + [Last(ticks)];
        assert RunTicks(deadline, rate, ticks) == runs;
        assert SpacedBy(runs, rate) by {
          forall i | 0 < i < |runs| ensures runs[i] > runs[i - 1] + rate {
            if i < |before| {
              assert runs[i] == before[i] && runs[i - 1] == before[i - 1];
            }
          }
        }
      } else {
        assert RunTicks(deadline, rate, ticks) == before;
      }
    }
  }

  /** With rate 0 the job runs in every iteration. */
  lemma {:induction false} ZeroRateRunsAlways(deadline: uint32, ticks: seq<uint32>)
    ensures RunTicks(deadline, 0, ticks) == ticks
  {
    if ticks != [] {
      ZeroRateRunsAlways(deadline, DropLast(ticks));
      assert ticks == DropLast(ticks) + [Last(ticks)];
    }
  }
}
