/**
 * The PIR motion sensor's uptime accumulator: every update adds the time since
 * the previous update when the pin reads high, and a read hands the total over
 * and starts again from zero. Times are milliseconds on the 32-bit clock.
 */
module Pir {
  import opened Words

  /** The accumulator and the time of the previous update; the latter is a function-local static, set on the first call. */
  datatype PirState = PirState(accumulated: uint32, lastCall: Option<uint32>)

  /** The accumulator as constructed; no update has happened yet. */
  const Initial: PirState := PirState(0, None)

  /** Milliseconds since the previous update, on the wrapping clock; the first update sees none. */
  function Elapsed(lastCall: Option<uint32>, now: uint32): uint32
  {
    if lastCall.None? then 0 else Wrap32(now - lastCall.value)
  }

  /** One update at time `now` with the pin level `high`. */
  function Step(s: PirState, now: uint32, high: bool): PirState
  {
    PirState(if high then Wrap32(s.accumulated + Elapsed(s.lastCall, now)) else s.accumulated, Some(now))
  }

  /** A read: the accumulated uptime, and the state with the accumulator cleared. */
  function Take(s: PirState): Reading
  {
    Reading(s.accumulated, s.(accumulated := 0))
  }

  datatype Reading = Reading(uptime: uint32, next: PirState)

  /** Without a wrap of the clock, the elapsed time is the plain difference. */
  lemma ElapsedIsDifference(last: uint32, now: uint32)
    requires last <= now
    ensures Elapsed(Some(last), now) == now - last
  {
  }

  /** A read returns what was accumulated and leaves zero behind, so a second read with no update between returns 0. */
  lemma TakeTwice(s: PirState)
    ensures Take(s).uptime == s.accumulated
    ensures Take(Take(s).next).uptime == 0
    ensures Take(s).next.lastCall == s.lastCall
  {
  }

  datatype Sample = Sample(now: uint32, high: bool)

  /** The updates of a trace, one after another. */
  function Replay(s: PirState, trace: seq<Sample>): PirState
    decreases |trace|
  {
    if trace == [] then s else Replay(Step(s, trace[0].now, trace[0].high), trace[1..])
  }

  /** Total time spent high over a trace: each high sample contributes the time since the sample before it. */
  function HighTime(lastCall: Option<uint32>, trace: seq<Sample>): nat
    decreases |trace|
  {
    if trace == [] then 0
    else (if trace[0].high then Elapsed(lastCall, trace[0].now) as nat else 0) + HighTime(Some(trace[0].now), trace[1..])
  }

  /** After any trace the accumulator holds the starting total plus the time spent high, modulo 2^32, and remembers the last sample time. */
  lemma {:induction false} ReplayAccumulates(s: PirState, trace: seq<Sample>)
    ensures Replay(s, trace).accumulated == Wrap32(s.accumulated + HighTime(s.lastCall, trace))
    ensures Replay(s, trace).lastCall == if trace == [] then s.lastCall else Some(trace[|trace| - 1].now)
    decreases |trace|
  {
    if trace != [] {
      var s' := Step(s, trace[0].now, trace[0].high);
      ReplayAccumulates(s', trace[1..]);
      var h := if trace[0].high then Elapsed(s.lastCall, trace[0].now) as nat else 0;
      WrapAdd(s.accumulated + h, HighTime(Some(trace[0].now), trace[1..]));
    }
  }

  lemma WrapAdd(a: int, b: int)
    ensures Wrap32(Wrap32(a) + b) == Wrap32(a + b)
  {
  }

  /** While the pin stays low the accumulator does not move. */
  lemma {:induction false} LowTraceAddsNothing(lastCall: Option<uint32>, trace: seq<Sample>)
    requires forall n :: 0 <= n < |trace| ==> !trace[n].high
    ensures HighTime(lastCall, trace) == 0
    decreases |trace|
  {
    if trace != [] {
      LowTraceAddsNothing(Some(trace[0].now), trace[1..]);
    }
  }

  class PirSensor {
    var accumulatedUptime: uint32
    /** `last_call`, static in `update`. */
    var lastCall: Option<uint32>

    function State(): PirState
      reads this
    {
      PirState(accumulatedUptime, lastCall)
    }

    constructor ()
      ensures State() == Initial
    {
      accumulatedUptime := 0;
      lastCall := None;
    }

    /** Adds the time since the previous call when the pin is high; always records this call's time. */
    method Update(now: uint32, pinHigh: bool)
      modifies this
      ensures State() == Step(old(State()), now, pinHigh)
    {
      if lastCall.None? {
        lastCall := Some(now);
      }
      var elapsedTime := Wrap32(now - lastCall.value);
      lastCall := Some(now);
      if pinHigh {
        accumulatedUptime := Wrap32(accumulatedUptime + elapsedTime);
      }
    }

    /** Returns the accumulated uptime and clears it. */
    method Read() returns (uptime: uint32)
      modifies this
      ensures Reading(uptime, State()) == Take(old(State()))
    {
      uptime := accumulatedUptime;
      accumulatedUptime := 0;
    }
  }
}
