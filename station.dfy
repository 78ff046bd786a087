/**
 * The sampler's main loop: per cycle, shift the CPU temperature into the
 * window, compensate the raw ambient temperature with the window average,
 * take the remaining readings, and read the particulate sensor with its
 * one-shot retry. The readings other than CPU temperature and particulates
 * come from drivers outside the model and enter as parameters.
 */
module Station {
  import opened Compensation
  import opened Filter
  import opened Particulates

  datatype GasData = GasData(oxidising: real, nh3: real, reducing: real)

  /** What the CPU file and the non-particulate drivers deliver in one cycle. */
  datatype CycleInputs = CycleInputs(
    cpu: real, raw: real, pressure: real, humidity: real,
    lux: real, amp: real, gas: GasData)

  /** The values one cycle puts into its payload. */
  datatype SensorReading = SensorReading(
    temp: real, pressure: real, humidity: real,
    lux: real, amp: real, gas: GasData, pm: PmData)

  /** An exception that nothing in the loop catches, so it ends the process. */
  datatype Fault = ZeroDivisionError | ParticulateFault(error: PmError)

  datatype CycleResult = Completed(reading: SensorReading) | Fatal(fault: Fault)

  datatype RunEnd = InputsExhausted | Terminated(fault: Fault)

  /** The CPU samples of a run of cycles, in order. */
  function CpuSamples(inputs: seq<CycleInputs>): (s: seq<real>)
    ensures |s| == |inputs|
    ensures forall i :: 0 <= i < |inputs| ==> s[i] == inputs[i].cpu
  {
    seq(|inputs|, i requires 0 <= i < |inputs| => inputs[i].cpu)
  }

  /**
   * The compensated temperature of cycle i: the raw reading of that cycle
   * against the average of the window after its CPU sample was shifted in.
   */
  function CompensatedAt(firstCpu: real, factor: real, inputs: seq<CycleInputs>, i: nat): real
    requires factor != 0.0 && i < |inputs|
  {
    Compensate(inputs[i].raw, Mean(WindowAfter(firstCpu, CpuSamples(inputs[..i + 1]))), factor)
  }

  /**
   * From the fifth cycle on, the compensation uses the mean of exactly the
   * CPU samples of that cycle and the four before it.
   */
  lemma CompensatedAtRecent(firstCpu: real, factor: real, inputs: seq<CycleInputs>, i: nat)
    requires factor != 0.0 && Capacity <= i + 1 <= |inputs|
    ensures CompensatedAt(firstCpu, factor, inputs, i)
         == Compensate(inputs[i].raw, Mean(CpuSamples(inputs[i + 1 - Capacity..i + 1])), factor)
  {
    var samples := CpuSamples(inputs[..i + 1]);
    AverageOfRecent(firstCpu, samples);
    assert samples[i + 1 - Capacity..] == CpuSamples(inputs[i + 1 - Capacity..i + 1]);
  }

  /** The reading a completed cycle yields: the compensated temperature and the other values as read. */
  function ReadingOf(inp: CycleInputs, temp: real, pm: PmData): SensorReading
  {
    SensorReading(temp, inp.pressure, inp.humidity, inp.lux, inp.amp, inp.gas, pm)
  }

  /** The loop's state: the CPU window, the particulate handle and the configured factor. */
  class SampleLoop {
    const factor: real
    const window: CpuTempWindow
    const pms: ParticulateSensor

    ghost predicate Valid()
      reads this, window
    {
      window.Valid()
    }

    /** Start-up: seed the window with the first CPU reading and open the particulate sensor. */
    constructor (firstCpu: real, factor: real, reply: (nat, nat) -> ReadOutcome)
      ensures Valid() && this.factor == factor
      ensures fresh(window) && fresh(pms)
      ensures window.first == firstCpu && window.history == [] && window.temps == Seed(firstCpu)
      ensures pms.reply == reply && pms.generation == 0 && pms.served == 0
    {
      this.factor := factor;
      window := new CpuTempWindow(firstCpu);
      pms := new ParticulateSensor(reply);
    }

    /**
     * One cycle of the loop, up to the payload. A zero factor raises
     * ZeroDivisionError at the compensation, after the window was shifted
     * and before the particulate sensor is touched.
     */
    method Cycle(inp: CycleInputs) returns (res: CycleResult, trace: seq<Event>)
      requires Valid()
      modifies window, pms
      ensures Valid() && window.history == old(window.history) + [inp.cpu]
      ensures |window.temps| == Capacity
      ensures factor == 0.0 ==>
        res == Fatal(ZeroDivisionError) && trace == []
        && pms.generation == old(pms.generation) && pms.served == old(pms.served)
      ensures factor != 0.0 ==>
        var a := RetryFrom(pms.reply, old(pms.State()));
        trace == a.trace
        && pms.State() == AfterRetry(pms.reply, old(pms.State()))
        && (a.outcome.Ok? ==>
              res == Completed(ReadingOf(inp, Compensate(inp.raw, Mean(window.temps), factor), a.outcome.data)))
        && (a.outcome.Raised? ==> res == Fatal(ParticulateFault(a.outcome.error)))
      ensures res.Completed? ==>
        factor != 0.0 && res.reading == ReadingOf(inp, Compensate(inp.raw, Mean(window.temps), factor), res.reading.pm)
    {
      var avg := window.Update(inp.cpu);
      if factor == 0.0 {
        return Fatal(ZeroDivisionError), [];
      }
      var temp := Compensate(inp.raw, avg, factor);
      var a := pms.ReadWithRetry();
      trace := a.trace;
      match a.outcome
      case Ok(pm) => res := Completed(ReadingOf(inp, temp, pm));
      case Raised(e) => res := Fatal(ParticulateFault(e));
    }
  }

  /**
   * The particulate handle state the i-th cycle of a run (counting from 0)
   * starts from, when every earlier cycle got as far as the particulate read:
   * the handle opened at start-up, advanced by each earlier cycle's retry.
   */
  function HandleBefore(reply: (nat, nat) -> ReadOutcome, i: nat): Handle
  {
    if i == 0 then Handle(0, 0) else AfterRetry(reply, HandleBefore(reply, i - 1))
  }

  /** The particulate read, with its retry, of the i-th cycle of a run. */
  function AttemptAt(reply: (nat, nat) -> ReadOutcome, i: nat): Attempt
  {
    RetryFrom(reply, HandleBefore(reply, i))
  }

  /**
   * A sensor whose first handle always answers with data is never
   * recreated: cycle i reads the i-th answer of that handle, once.
   */
  lemma {:induction false} SteadySensor(reply: (nat, nat) -> ReadOutcome, i: nat)
    requires forall n: nat :: reply(0, n).Reading?
    ensures HandleBefore(reply, i) == Handle(0, i)
    ensures AttemptAt(reply, i) == Attempt(Ok(reply(0, i).data), [Read])
  {
    if i > 0 {
      SteadySensor(reply, i - 1);
    }
  }

  /**
   * What completed cycle i of a run yields: its compensated temperature (as
   * CompensatedAt gives it), its other inputs as read, and the particulate
   * data of that cycle's read (as AttemptAt gives it).
   */
  ghost predicate CycleReading(firstCpu: real, factor: real, reply: (nat, nat) -> ReadOutcome,
                               inputs: seq<CycleInputs>, i: nat, r: SensorReading)
    requires i < |inputs|
  {
    r == ReadingOf(inputs[i], r.temp, r.pm)
    && (factor != 0.0 ==>
          r.temp == CompensatedAt(firstCpu, factor, inputs, i) && AttemptAt(reply, i).outcome == Ok(r.pm))
  }

  /** The loop's state before cycle k of a run, when every earlier cycle completed. */
  ghost predicate StateBefore(loop: SampleLoop, firstCpu: real, reply: (nat, nat) -> ReadOutcome,
                              inputs: seq<CycleInputs>, k: nat)
    reads loop, loop.window, loop.pms
    requires k <= |inputs|
  {
    loop.Valid()
    && loop.window.first == firstCpu && loop.window.history == CpuSamples(inputs[..k])
    && loop.pms.reply == reply && (loop.factor != 0.0 ==> loop.pms.State() == HandleBefore(reply, k))
  }

  /** Cycle k of a run: it either completes with that cycle's CycleReading or raises the cycle's fault. */
  method RunCycle(loop: SampleLoop, ghost firstCpu: real, ghost reply: (nat, nat) -> ReadOutcome,
                  inputs: seq<CycleInputs>, k: nat)
    returns (res: CycleResult)
    requires k < |inputs| && StateBefore(loop, firstCpu, reply, inputs, k)
    modifies loop.window, loop.pms
    ensures loop.factor == 0.0 ==> res == Fatal(ZeroDivisionError)
    ensures loop.factor != 0.0 && res.Fatal? ==>
      AttemptAt(reply, k).outcome.Raised? && res.fault == ParticulateFault(AttemptAt(reply, k).outcome.error)
    ensures res.Completed? ==>
      StateBefore(loop, firstCpu, reply, inputs, k + 1)
      && CycleReading(firstCpu, loop.factor, reply, inputs, k, res.reading)
  {
    ghost var a := AttemptAt(reply, k);
    var trace;
    res, trace := loop.Cycle(inputs[k]);
    if res.Completed? {
      assert a.outcome == Ok(res.reading.pm);
      assert loop.pms.State() == HandleBefore(reply, k + 1);
      assert CpuSamples(inputs[..k + 1]) == CpuSamples(inputs[..k]) + [inputs[k].cpu];
      assert loop.window.temps == WindowAfter(firstCpu, CpuSamples(inputs[..k + 1]));
    }
  }

  /**
   * The first |inputs| cycles of the loop, started with the given first CPU
   * reading; the run stops at the first uncaught exception.
   */
  method Run(firstCpu: real, factor: real, reply: (nat, nat) -> ReadOutcome, inputs: seq<CycleInputs>)
    returns (readings: seq<SensorReading>, end: RunEnd)
    ensures |readings| <= |inputs|
    ensures end == InputsExhausted <==> |readings| == |inputs|
    ensures factor == 0.0 && |inputs| > 0 ==> readings == [] && end == Terminated(ZeroDivisionError)
    ensures forall i :: 0 <= i < |readings| ==> CycleReading(firstCpu, factor, reply, inputs, i, readings[i])
    ensures factor != 0.0 && end.Terminated? ==>
      AttemptAt(reply, |readings|).outcome.Raised?
      && end.fault == ParticulateFault(AttemptAt(reply, |readings|).outcome.error)
    ensures factor != 0.0 && (forall i :: 0 <= i < |inputs| ==> AttemptAt(reply, i).outcome.Ok?) ==>
      end == InputsExhausted
  {
    var loop := new SampleLoop(firstCpu, factor, reply);
    readings, end := [], InputsExhausted;
    var k := 0;
    while k < |inputs|
      invariant 0 <= k <= |inputs| && |readings| == k
      invariant fresh(loop.window) && fresh(loop.pms)
      invariant loop.factor == factor && StateBefore(loop, firstCpu, reply, inputs, k)
      invariant factor == 0.0 ==> k == 0
      invariant forall i :: 0 <= i < k ==> CycleReading(firstCpu, factor, reply, inputs, i, readings[i])
    {
      var res := RunCycle(loop, firstCpu, reply, inputs, k);
      if res.Fatal? {
        return readings, Terminated(res.fault);
      }
      readings := readings + [res.reading];
      k := k + 1;
    }
  }
}
