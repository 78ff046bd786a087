/**
 * The particulate (PMS5003) read of each cycle and its one-shot recovery:
 * read once; only on a read timeout, recreate the sensor handle, wait one
 * second and read exactly once more. Any other failure, and a failure of the
 * second read, is not caught and ends the process.
 */
module Particulates {

  /** Mass concentrations in micrograms per cubic metre for PM1, PM2.5 and PM10. */
  datatype PmData = PmData(pm1: real, pm25: real, pm10: real)

  /** What the hardware answers to one `read()` on a handle. */
  datatype ReadOutcome = Reading(data: PmData) | TimedOut | OtherFailure

  /** The exception a failed read raises: the driver's `ReadTimeoutError`, or any other. */
  datatype PmError = ReadTimeoutError | OtherReadError

  /** What the particulate step hands to the rest of the cycle. */
  datatype Outcome = Ok(data: PmData) | Raised(error: PmError)

  /** What is done to the sensor, in order. */
  datatype Event = Read | Reinit | Sleep(seconds: nat)

  datatype Attempt = Attempt(outcome: Outcome, trace: seq<Event>)

  /** The result of a single read that nothing catches. */
  function Uncaught(o: ReadOutcome): (r: Outcome)
    ensures r.Ok? <==> o.Reading?
    ensures o.Reading? ==> r.data == o.data
    ensures o.TimedOut? ==> r == Raised(ReadTimeoutError)
    ensures o.OtherFailure? ==> r == Raised(OtherReadError)
  {
    match o
    case Reading(d) => Ok(d)
    case TimedOut => Raised(ReadTimeoutError)
    case OtherFailure => Raised(OtherReadError)
  }

  /** Number of occurrences of an event in a trace. */
  function Count(trace: seq<Event>, e: Event): nat
  {
    if |trace| == 0 then 0
    else (if trace[0] == e then 1 else 0) + Count(trace[1..], e)
  }

  /** The delay before the retry, in seconds. */
  const SettleDelay: nat := 1

  /**
   * The retry policy, given what the current handle answers (`first`) and
   * what the first read on a freshly created handle would answer (`retry`).
   */
  function Policy(first: ReadOutcome, retry: ReadOutcome): (a: Attempt)
    // every cycle starts with one read, and never does more than two reads or one re-creation
    ensures |a.trace| > 0 && a.trace[0] == Read
    ensures 1 <= Count(a.trace, Read) <= 2 && Count(a.trace, Reinit) <= 1
    // a first read that succeeds is all there is
    ensures first.Reading? ==> a.trace == [Read] && a.outcome == Ok(first.data)
    // a timeout, and only a timeout, brings recreate, one-second sleep, read, in that order
    ensures Count(a.trace, Reinit) == 1 <==> first.TimedOut?
    ensures first.TimedOut? ==> a.trace == [Read, Reinit, Sleep(SettleDelay), Read]
    // any other failure of the first read propagates untouched
    ensures first.OtherFailure? ==> a.trace == [Read] && a.outcome == Raised(OtherReadError)
    // the cycle gets data exactly when the first read, or the single retry after a timeout, succeeds
    ensures a.outcome.Ok? <==> first.Reading? || (first.TimedOut? && retry.Reading?)
    // after a timeout the cycle gets the retry's data, or its error, which is not caught
    ensures first.TimedOut? ==> a.outcome == Uncaught(retry)
  {
    if first.TimedOut? then
      var t := [Read, Reinit, Sleep(SettleDelay), Read];
      assert t[1..] == [Reinit, Sleep(SettleDelay), Read] && t[1..][1..] == [Sleep(SettleDelay), Read];
      assert t[1..][1..][1..] == [Read] && [Read][1..] == [];
      assert Count([Read], Read) == 1 && Count([Read], Reinit) == 0;
      assert Count([Sleep(SettleDelay), Read], Read) == 1 && Count([Sleep(SettleDelay), Read], Reinit) == 0;
      assert Count(t[1..], Read) == 1 && Count(t[1..], Reinit) == 1;
      Attempt(Uncaught(retry), t)
    else
      Attempt(Uncaught(first), [Read])
  }

  /** Which handle is current and how many reads it has served. */
  datatype Handle = Handle(generation: nat, served: nat)

  /** The retry of one cycle, started from the given handle state. */
  function RetryFrom(reply: (nat, nat) -> ReadOutcome, h: Handle): Attempt
  {
    Policy(reply(h.generation, h.served), reply(h.generation + 1, 0))
  }

  /**
   * The handle state after one cycle's retry: a new handle with one read
   * served after a first timeout, otherwise the same handle one read further.
   */
  function AfterRetry(reply: (nat, nat) -> ReadOutcome, h: Handle): Handle
  {
    if reply(h.generation, h.served).TimedOut? then Handle(h.generation + 1, 1)
    else Handle(h.generation, h.served + 1)
  }

  /**
   * The module-level `pms5003` handle. The hardware is the function `reply`:
   * `reply(g, n)` is what the n-th read on the g-th handle created answers.
   * Recreating the handle moves to the next generation.
   */
  class ParticulateSensor {
    const reply: (nat, nat) -> ReadOutcome
    /** How many times the handle has been recreated. */
    var generation: nat
    /** How many reads the current handle has served. */
    var served: nat

    constructor (reply: (nat, nat) -> ReadOutcome)
      ensures this.reply == reply && generation == 0 && served == 0
    {
      this.reply := reply;
      generation := 0;
      served := 0;
    }

    function State(): Handle
      reads this
    {
      Handle(generation, served)
    }

    /** The answer the next read on the current handle will get. */
    function NextReply(): ReadOutcome
      reads this
    {
      reply(generation, served)
    }

    method ReadOnce() returns (o: ReadOutcome)
      modifies this
      ensures o == old(NextReply())
      ensures generation == old(generation) && served == old(served) + 1
    {
      o := reply(generation, served);
      served := served + 1;
    }

    /** Discard the handle and create a new one. */
    method Recreate()
      modifies this
      ensures generation == old(generation) + 1 && served == 0
    {
      generation := generation + 1;
      served := 0;
    }

    /** The `try`/`except ReadTimeoutError` block of one cycle. */
    method ReadWithRetry() returns (a: Attempt)
      modifies this
      ensures a == Policy(old(NextReply()), reply(old(generation) + 1, 0))
      ensures old(NextReply()).TimedOut? ==> generation == old(generation) + 1 && served == 1
      ensures !old(NextReply()).TimedOut? ==> generation == old(generation) && served == old(served) + 1
      ensures a == RetryFrom(reply, old(State())) && State() == AfterRetry(reply, old(State()))
    {
      var trace := [Read];
      var o := ReadOnce();
      if o.TimedOut? {
        Recreate();
        trace := trace + [Reinit, Sleep(SettleDelay)];
        o := ReadOnce();
        trace := trace + [Read];
      }
      a := Attempt(Uncaught(o), trace);
    }
  }
}
