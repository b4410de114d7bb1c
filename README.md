# Bio-conditioned driving: signal generator and degradation pipeline in Dafny

This project models the per-tick core of a driving-simulator data-collection harness.
A synthetic physiological generator (`BioSignalGenerator`) turns a risk scalar into a
sample with heart rate (HR), heart-rate variability (HRV) and electrodermal activity (EDA).
Three degradation stages then run in a fixed order: latency, missing samples, noise.

- `deque.dfy`, module `Deques`: a value model of `collections.deque(maxlen=n)`.
  It covers append with eviction of the oldest element, the fold of many appends
  (`Fill`), and the FIFO delay law.
- `degradation.dfy`, module `Degradation`: `Code/utils.py`.
  - The buffer length `max(1, int(latency * 20))`, with Python's `int()` written out as truncation toward zero.
  - `apply_latency`, modelled twice. `LatencyStep` is a function on the value of the cache.
    `LatencyBuffers` is a class that holds the process-wide `_latency_buffers` dictionary as a
    `map<real, Deque<T>>` field, with a ghost record of every sample appended under each latency.
    Its method `ApplyLatency` is proved against `LatencyStep` and the delay law.
  - `apply_missing` and `apply_noise`.
- `biosignal.dfy`, module `Biosignal`: `Code/biosignal.py`.
  - The class `BioSignalGenerator`, with real-valued fields `hr` and `eda` that `Step` updates in place.
  - The pure functions that specify it: `Drift` (state update), `Hrv` (clamped HRV) and `Reading` (the returned record).
  - Lemmas about runs of many steps.
- `pipeline.dfy`, module `Pipeline`: one tick in the order of `Code/main.py:120-123` (generate, latency,
  missing, noise), a run of ticks, and the end-to-end lemma. With a one-sample latency buffer and no
  noise, the recorded stream is the raw generator stream.

Every random draw is a parameter:
- `np.random.uniform` is the constructor argument.
- The three `np.random.normal` draws of a step are a `Draws` value.
- `random.random` in `apply_missing` is `u`.
- The `random.gauss` draws of `apply_noise` are a function from field name to draw.

Samples are `map<string, real>`. The latency cache and `apply_missing` are generic in the sample type. `apply_noise` is generic in the key type.

Facts about the code that the model keeps as they are:
- The buffer length is `max(1, int(latency * 20))`, where `int` truncates toward zero.
- The front of a full buffer of length C is the input from C − 1 calls earlier (Code/utils.py:26-29).
- `apply_missing` returns its input on both branches, whatever its `# hold-last-value` comment says (Code/utils.py:39-43).

## Model

| member | source | states |
|---|---|---|
| `Degradation.Trunc` | Code/utils.py:21 | `int()` on a float truncates toward zero: floor for non-negative values, ceiling for negative ones |
| `Degradation.Capacity` | Code/utils.py:20-21 | the buffer length is at least 1; it is floor(20·latency) when 20·latency ≥ 1, and 1 whenever 20·latency < 2 (so also for any latency ≤ 0.05) |
| `Degradation.CapacityMonotone` | Code/utils.py:21 | a longer latency never gets a shorter buffer |
| `Deques.Deque.Append` | Code/utils.py:24-26 | appending keeps maxlen, never exceeds it, gives length min(old length + 1, maxlen) and puts the new element last |
| `Deques.AppendEvictsOldest` | Code/utils.py:24-26 | with room left the element is simply added; on a full deque the oldest element is dropped |
| `Deques.Fill` | Code/utils.py:26 | a run of appends never changes the deque's maxlen |
| `Deques.AppendKeepsLatest` | Code/utils.py:24-26 | if the deque holds the last maxlen inputs so far, after one more append it holds the last maxlen inputs including the new one |
| `Deques.FillHoldsLatest` | Code/utils.py:24-26 | a fresh deque of length c fed any input sequence holds exactly its last min(len, c) inputs, in order |
| `Deques.DelayLaw` | Code/utils.py:26-29 | the front after n appends to a fresh deque of length c is input n − c (0-based), i.e. call i returns the input of call i − c + 1 once i ≥ c − 1, and the very first input before that |
| `Degradation.Buffered` | Code/utils.py:23-24 | the buffer used is the cached one for that latency or, on the first call, a new empty one of length Capacity(latency) |
| `Degradation.LatencyStep` | Code/utils.py:12-29 | latency ≤ 0 returns the sample and leaves the cache as it was; otherwise only the key `latency` is added or changed, every other buffer is untouched, every buffer keeps the length it was created with, the buffer holds the latest Capacity(latency) samples of what it held plus the new one, and the result is its oldest |
| `Degradation.LatencyOfOneIsIdentity` | Code/utils.py:21-29 | when the buffer length is 1 (any latency below 0.1 s, or none) the latency stage returns its input |
| `Degradation.TracksAfterCall` | Code/utils.py:23-26 | one call keeps every buffer equal to the latest samples ever appended under its latency |
| `Degradation.CoherentAfterCall` | Code/utils.py:23-26 | one call preserves the cache invariant: buffers created at their capacity, bounded, and holding the latest appended samples |
| `Degradation.BuffersAreFills` | Code/utils.py:23-26 | under the cache invariant each buffer holds exactly what a fresh deque of length Capacity(L) holds after the appends recorded for L, which ties the cache to Fill and DelayLaw |
| `Degradation.LatencyBuffers.constructor` | Code/utils.py:6 | the process starts with an empty cache |
| `Degradation.LatencyBuffers.ApplyLatency` | Code/utils.py:12-29 | agrees with LatencyStep; latency ≤ 0 leaves cache and history alone; otherwise the sample joins that latency's history only, the result is history[DelayIndex(n, Capacity)] (DelayLaw applied, via BuffersAreFills, to every call ever made with that latency, across cases), and no existing buffer changes length |
| `Degradation.ApplyMissing` | Code/utils.py:31-43 | the stage returns its input unchanged for every rate and every uniform draw |
| `Degradation.ApplyNoise` | Code/utils.py:45-55 | std ≤ 0 returns the input; the result always has exactly the input's keys, and with std > 0 each value differs from the input value by that key's draw |
| `Biosignal.Hrv` | Code/biosignal.py:12 | HRV is always ≥ 20 and ≥ 50 − 25·risk + draw, equals one of the two, and equals 50 − 25·risk + draw whenever that is ≥ 20 |
| `Biosignal.Drift` | Code/biosignal.py:10-11 | with zero risk and zero draws the state is unchanged; with non-negative risk and draws HR and EDA do not decrease |
| `Biosignal.Reading` | Code/biosignal.py:12-13 | the returned record has exactly the keys HR, HRV, EDA; HR and EDA are the updated state and HRV is Hrv(risk, draw), hence ≥ 20 |
| `Biosignal.BioSignalGenerator.constructor` | Code/biosignal.py:5-7 | a fresh generator has 60 ≤ hr < 70 (the uniform draw) and eda = 0.5 |
| `Biosignal.BioSignalGenerator.Step` | Code/biosignal.py:9-13 | hr becomes old hr + 0.2·risk + draw and eda becomes old eda + 0.3·risk + draw (Drift); the returned HR and EDA are the new fields and HRV (≥ 20) is computed from risk and draw only |
| `Biosignal.DriftAccumulates` | Code/biosignal.py:10-11 | after any run of steps HR has moved by 0.2·(total risk) + (total HR draws) and EDA by 0.3·(total risk) + (total EDA draws) |
| `Biosignal.DriftUpward` | Code/biosignal.py:10-11 | with non-negative risks and draws HR and EDA never end below where they started |
| `Pipeline.Tick` | Code/main.py:120-123 | the body chains Drift, Reading, LatencyStep, ApplyMissing, ApplyNoise in the order of the source; the contract keeps the latency cache well formed |
| `Pipeline.TickKeepsFullRows` | Code/main.py:120-131 | whatever the configuration and draws, the recorded sample has exactly the fields HR, HRV, EDA and every buffered sample stays a full record |
| `Pipeline.TickIsTransparent` | Code/main.py:120-123 | with a one-sample latency buffer and noise off, a tick records the generator's own sample, whatever the missing rate |
| `Pipeline.Run` | Code/main.py:111-123 | a run records one sample per tick |
| `Pipeline.TransparentRun` | Code/main.py:111-123 | end to end: with a one-sample latency buffer and noise off, the recorded stream equals the raw generator stream at every tick |

## Left out

- The simulator driver in Code/main.py: connecting to the simulator, loading worlds and weather, sync mode, actor spawning, the camera callback, CSV and image writing, sleeping, garbage collection and console output. All of these are I/O or third-party calls. A run in `Pipeline` is the sequence of ticks that reach the pipeline; the ticks skipped while no camera image has arrived (Code/main.py:114-115) are not modelled.
- The enumeration of experiment cases and the formatting of case names (Code/main.py:163-195). This is orchestration with nothing to prove.
- `ensure_dir` (Code/utils.py:8-10), which is filesystem I/O.
- Randomness. Every draw is a parameter, so there are no distributions and no statistical claims such as zero-mean noise.
- IEEE floating point. HR, EDA, HRV, latencies and rates are reals, so float rounding (of `0.6 * 20`, for example) is not modelled.
- `Capacity` / `LatencyBuffers.ApplyLatency`: `int()` raises OverflowError when latency·20 is infinite, and `deque(maxlen=…)` raises OverflowError when the truncated length exceeds 2**63 − 1 (latency above about 4.6e17 s). The model's buffer length is an unbounded integer, so the stage never fails. The configured latencies (Code/main.py:38) are far below that limit. Likewise a NaN latency passes the `<= 0.0` guard (Code/utils.py:17) and `int()` at Code/utils.py:21 raises ValueError; reals have no NaN, so the model's stage never fails.
- `BioSignalGenerator.constructor`: takes the uniform draw in [60, 70), the half-open range numpy documents. Float rounding that could return exactly 70 is not modelled.
- `LatencyBuffers.ApplyLatency`: the deque is a value in the map, not an object updated in place. The source never hands the deque out, so no aliasing is lost.
- The Python dictionary's key order, and the order in which `apply_noise` takes its draws. Each field gets its own draw, given by key.
