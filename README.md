# envirobot: compensation window and particulate retry

envirobot is a telemetry sampler for a Raspberry Pi with an Enviro+ board. It
runs forever. Each cycle it reads the board's sensors, corrects the ambient
temperature for heat from the CPU, formats the readings as one InfluxDB line
and POSTs it. This project models the two pieces of that loop that carry
logic:

- **The CPU-temperature compensation.** `cpu_temps` starts as five copies of
  the first CPU reading. Each cycle drops its oldest entry and appends the new
  reading. The window's arithmetic mean `avg` then corrects the raw BME280
  reading `raw` as `raw - (avg - raw) / factor`. The model works over exact
  `real`s (`compensation.dfy`). `CpuTempWindow` (`filter.dfy`) holds the list
  the loop rebinds each cycle, as a `seq` field.
- **The particulate read with one retry.** The loop reads the PMS5003 once.
  Only on `ReadTimeoutError` does it recreate the handle, sleep one second and
  read exactly once more. Any other exception, and any failure of that second
  read, is not caught. `Policy` (`particulates.dfy`) states this as an outcome
  plus an event trace (`Read`, `Reinit`, `Sleep(1)`). `ParticulateSensor`
  holds the reassigned `pms5003` handle. It is modelled as a handle generation
  and a count of reads on the current handle. The hardware is a function
  `reply(generation, n)` giving the answer to the n-th read on that handle.

`Station.SampleLoop` (`station.dfy`) puts these together into one cycle.
`Station.Run` runs the first `|inputs|` cycles and stops at the first uncaught
exception the model covers (see "## Left out" for those it does not). Readings other than the CPU temperature and the particulates come
from drivers outside the model, so they enter as `CycleInputs` parameters.

The code does not check the compensation factor. A factor of `0.0` makes the
division at `envirobot.py:75` raise `ZeroDivisionError` in the first cycle,
after the window has been shifted. The model follows the code here
(`Fatal(ZeroDivisionError)`). Likewise, the window is the list the code rebinds, not a ring
buffer.

## Model

| member | source | states |
|---|---|---|
| `Compensation.Seed` | envirobot.py:65 | the initial window has exactly 5 entries, each equal to the first CPU reading |
| `Compensation.Shift` | envirobot.py:72 | an update keeps the length, drops the oldest entry, keeps the other entries in order and puts the new sample last; on an empty list it yields just the sample, as a Python slice does |
| `Compensation.ShiftSamples` | envirobot.py:72 | as multisets, the updated window is the old one minus the oldest entry plus the new sample |
| `Compensation.Compensate` | envirobot.py:75 | the compensated value equals the raw one when the average equals it; with a positive factor it is below raw exactly when the average is above raw, and above raw exactly when the average is below; the reverse holds for a negative factor |
| `Compensation.WindowIsSuffix` | envirobot.py:65-72 | after any number of updates the window is the last 5 entries of the seed followed by every sample so far |
| `Compensation.WindowAfter` | envirobot.py:65-72 | the window after the seed and one shift per sample, as the loop rebinds `cpu_temps` cycle after cycle, always has exactly 5 entries (its contents are given by `WindowIsSuffix`, `WindowOfRecent` and `WindowWhileFilling`) |
| `Compensation.WindowOfRecent` | envirobot.py:65-72 | after k >= 5 updates the window is the last 5 samples in arrival order |
| `Compensation.WindowWhileFilling` | envirobot.py:65-72 | after k < 5 updates the window is 5 - k copies of the first reading followed by the k samples |
| `Compensation.SumAppend` | envirobot.py:73 | the sum of a list with one more entry is the old sum plus that entry |
| `Compensation.SumShift` | envirobot.py:72-73 | an update changes the window sum by the new sample minus the evicted one |
| `Compensation.Mean` | envirobot.py:73 | `avg_cpu_temp`: the mean times the number of entries is the sum; its properties are `MeanBounds`, `MeanShift`, `MeanOfConstant` and `AverageOfRecent` |
| `Compensation.MeanShift` | envirobot.py:72-73 | an update moves the average by (new - evicted) / 5 |
| `Compensation.MeanBounds` | envirobot.py:73 | the average (sum over length) lies between any lower and upper bound of the window entries |
| `Compensation.MeanOfConstant` | envirobot.py:73 | the average of a window whose entries are all c is c |
| `Compensation.SeedMean` | envirobot.py:65-73 | the average of the seeded window is the first CPU reading |
| `Compensation.AverageOfRecent` | envirobot.py:71-73 | after k >= 5 updates the average is the mean of exactly the 5 latest samples |
| `Compensation.CompensateInverse` | envirobot.py:75 | the raw reading is recovered from the compensated value, the average and the factor (factor not 0 or -1) as (comp * factor + avg) / (factor + 1) |
| `Compensation.CompensateAntitone` | envirobot.py:75 | with a positive factor a hotter CPU average never raises the compensated temperature |
| `Compensation.Scenario` | envirobot.py:65-75 | first reading 20 then 22 gives window 20,20,20,20,22 with average 20.4; raw 21 with factor 2.25 compensates to 319/15 |
| `Filter.CpuTempWindow.constructor` | envirobot.py:65 | the window starts as the seed of the first reading with no samples shifted in |
| `Filter.CpuTempWindow.Update` | envirobot.py:71-73 | the new window is the shift of the old one by the sample and stays the window of the recorded samples; it has 5 entries; the returned value is their mean |
| `Particulates.Uncaught` | envirobot.py:94-98 | an uncaught read yields data exactly when the hardware answered with data; a timeout raises `ReadTimeoutError`, any other failure another error |
| `Particulates.Policy` | envirobot.py:93-98 | the trace starts with a read; 1 or 2 reads and at most 1 re-creation; a successful first read gives trace [Read] and its data; a re-creation happens exactly on a first timeout and then the trace is Read, Reinit, Sleep(1), Read; any other first failure propagates with trace [Read]; data comes back exactly when the first read or the single retry after a timeout succeeds; after a timeout the outcome is the retry's own data when it answers with data, and its own error, uncaught, when it fails |
| `Particulates.ParticulateSensor.constructor` | envirobot.py:49 | a new handle is generation 0 with no reads served |
| `Particulates.ParticulateSensor.ReadOnce` | envirobot.py:94 | a read returns the hardware's answer for the current handle and read count, and advances the count |
| `Particulates.ParticulateSensor.Recreate` | envirobot.py:96 | re-creation moves to a new handle that has served no reads |
| `Particulates.ParticulateSensor.ReadWithRetry` | envirobot.py:93-98 | the result is `Policy` of the current handle's next answer and the first answer of a new handle (`RetryFrom` of the old handle state); the handle is replaced, with one read served, exactly when the first read timed out, and otherwise serves one more read (`AfterRetry`) |
| `Station.SampleLoop.constructor` | envirobot.py:49-65 | start-up seeds the window with the first CPU reading and opens a fresh particulate handle |
| `Station.SampleLoop.Cycle` | envirobot.py:70-98 | one cycle shifts the CPU sample into the window; with a zero factor it raises ZeroDivisionError and leaves the particulate handle untouched; otherwise it performs `RetryFrom` of the handle state, leaves the handle in `AfterRetry` of it, and completes with the compensated temperature from the new window average and the read's data, or fails with the particulate error |
| `Station.Run` | envirobot.py:65-98 | a run ends early only on an uncaught exception; a zero factor ends the first cycle with ZeroDivisionError; otherwise cycle i completes with `Compensate` of its raw reading against the mean of the window after the first i + 1 CPU samples, the other values as read, and the data of `AttemptAt` i (the retry from the handle that the earlier cycles left behind); a run that ends early ends on the particulate error of the next cycle's attempt; if every cycle's attempt yields data, the run completes all its cycles |
| `Station.RunCycle` | envirobot.py:70-98 | cycle k of a run, from the state the first k completed cycles leave, either completes with cycle k's reading and the state for cycle k + 1, or raises ZeroDivisionError (zero factor) or the particulate error of `AttemptAt` k |
| `Station.SteadySensor` | envirobot.py:93-96 | if the first handle always answers with data, it is never recreated: cycle i's attempt is a single read returning that handle's i-th answer |
| `Station.CompensatedAtRecent` | envirobot.py:71-75 | from the fifth cycle on, a cycle's compensated temperature uses the mean of exactly that cycle's CPU sample and the four before it |

## Left out

- Sensor drivers and bus setup (`SMBus`, `BME280`, `LTR559`, `Noise`, `gas`, `PMS5003` construction, `envirobot.py:14-37, 46-50`) are foreign libraries. Their readings are parameters, and the PMS5003 is the abstract `reply` function.
- Exceptions from the non-particulate drivers, and from `PMS5003()` itself, are not modelled. Each would end the process, because nothing in the loop catches it.
- Exceptions from `get_cpu_temperature()` (`envirobot.py:71`; the `open` and `int()` at `envirobot.py:59-61`), from `requests.post` (`envirobot.py:105`, for example a connection error) and from `time.sleep(interval)` (`envirobot.py:109`, for example `ValueError` on a negative interval) are not modelled either. Nothing catches them, so each would end the process. `Station.Run`'s claims that a run ends only on ZeroDivisionError or a particulate error, and that it completes every cycle when every attempt yields data, assume none of these is raised.
- The one-second boot delay after the first `PMS5003()` (`envirobot.py:50`) is not modelled.
- `get_cpu_temperature` (`envirobot.py:58-62`) reads a file under `/sys` and divides by 1000. Its results are the `firstCpu` and `cpu` parameters.
- Configuration loading and the endpoint string (`envirobot.py:6-7, 53-55`) are not modelled. The factor is a parameter, and a missing variable is not modelled.
- Payload formatting (`envirobot.py:101`) uses Python float format specs and is not modelled. `SensorReading` holds the values that would be formatted.
- Logging and the HTTP POST (`envirobot.py:102-108`) are network I/O whose response is ignored.
- The `while True` loop and `time.sleep(interval)` (`envirobot.py:68, 109`) do not terminate. `Station.Run` covers any finite prefix of cycles, without timing.
- `Sleep(1)` is recorded as a trace event. No clock is modelled.
- All arithmetic is over exact reals. IEEE-754 rounding of the sum, the mean and the compensation is not modelled.
- `Compensation.Compensate`: requires a nonzero factor. The zero-factor `ZeroDivisionError` is modelled by its caller, `Station.SampleLoop.Cycle`.
