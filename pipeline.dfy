/**
 One simulation tick as Code/main.py chains the core: the generator steps
 with the tick's risk, then the sample passes the latency, missing-sample
 and noise stages in that order. The driver around it (simulator, CSV file,
 images) is not modelled; a run is a sequence of ticks.
 */
module Pipeline {

  import opened Deques
  import opened Degradation
  import opened Biosignal

  /** The degradation settings of one experiment case; zero or less switches a stage off. */
  datatype Config = Config(latency: real, missRate: real, noiseStd: real)

  /** The random draws of one tick: the generator's, apply_missing's and apply_noise's (one per field). */
  datatype TickDraws = TickDraws(bio: Draws, miss: real, noise: string -> real)

  /** Every buffered sample is a full record with the fields HR, HRV and EDA. */
  ghost predicate FullRows(cache: map<real, Deque<Sample>>)
  {
    forall L, i :: L in cache && 0 <= i < |cache[L].items| ==> cache[L].items[i].Keys == Fields
  }

  /** What one tick leaves behind: the generator state, the latency cache and the recorded sample. */
  datatype Outcome = Outcome(state: Vitals, cache: map<real, Deque<Sample>>, row: Sample)

  /** One tick: generate, then latency, then missing, then noise. */
  function Tick(v: Vitals, cache: map<real, Deque<Sample>>, cfg: Config, risk: real, t: TickDraws): (o: Outcome)
    requires WellFormed(cache)
    ensures WellFormed(o.cache)
  {
    var v' := Drift(v, risk, t.bio);
    var raw := Reading(v', risk, t.bio.hrv);
    var step := LatencyStep(cache, raw, cfg.latency);
    var kept := ApplyMissing(step.1, cfg.missRate, t.miss);
    Outcome(v', step.0, ApplyNoise(kept, cfg.noiseStd, t.noise))
  }

  /**
   Whatever the configuration and draws, a tick records a full row and keeps
   every buffered sample a full row, so the HR, HRV and EDA columns can
   always be read.
   */
  lemma TickKeepsFullRows(v: Vitals, cache: map<real, Deque<Sample>>, cfg: Config, risk: real, t: TickDraws)
    requires WellFormed(cache) && FullRows(cache)
    ensures FullRows(Tick(v, cache, cfg, risk, t).cache)
    ensures Tick(v, cache, cfg, risk, t).row.Keys == Fields
  {
    var raw := Reading(Drift(v, risk, t.bio), risk, t.bio.hrv);
    var step := LatencyStep(cache, raw, cfg.latency);
    var held := Held(cache, cfg.latency) + [raw];
    assert forall i :: 0 <= i < |held| ==> held[i].Keys == Fields;
    if cfg.latency > 0.0 {
      var items := step.0[cfg.latency].items;
      forall i | 0 <= i < |items|
        ensures items[i].Keys == Fields
      {
        LatestWithin(held, Capacity(cfg.latency), i);
      }
      assert step.1.Keys == Fields;
    }
    assert FullRows(step.0);
  }

  /**
   With a latency buffer of length one and noise switched off, a tick records
   exactly the sample the generator produced, whatever the missing rate.
   */
  lemma TickIsTransparent(v: Vitals, cache: map<real, Deque<Sample>>, cfg: Config, risk: real, t: TickDraws)
    requires WellFormed(cache)
    requires Capacity(cfg.latency) == 1 && cfg.noiseStd <= 0.0
    ensures Tick(v, cache, cfg, risk, t).state == Drift(v, risk, t.bio)
    ensures Tick(v, cache, cfg, risk, t).row == Reading(Drift(v, risk, t.bio), risk, t.bio.hrv)
  {
    LatencyOfOneIsIdentity(cache, Reading(Drift(v, risk, t.bio), risk, t.bio.hrv), cfg.latency);
  }

  /** The recorded samples of a case: one tick per risk value. */
  function Run(v: Vitals, cache: map<real, Deque<Sample>>, cfg: Config, risks: seq<real>, ticks: seq<TickDraws>)
    : (out: seq<Sample>)
    requires |risks| == |ticks| && WellFormed(cache)
    ensures |out| == |risks|
    decreases |risks|
  {
    if risks == [] then []
    else
      var o := Tick(v, cache, cfg, risks[0], ticks[0]);
      [o.row] + Run(o.state, o.cache, cfg, risks[1..], ticks[1..])
  }

  /** The samples the generator alone would produce for the same risks and draws. */
  function RawRun(v: Vitals, risks: seq<real>, draws: seq<Draws>): (out: seq<Sample>)
    requires |risks| == |draws|
    ensures |out| == |risks|
    decreases |risks|
  {
    if risks == [] then []
    else
      var v' := Drift(v, risks[0], draws[0]);
      [Reading(v', risks[0], draws[0].hrv)] + RawRun(v', risks[1..], draws[1..])
  }

  function BioDraws(ticks: seq<TickDraws>): (r: seq<Draws>)
    ensures |r| == |ticks| && forall i :: 0 <= i < |ticks| ==> r[i] == ticks[i].bio
  {
    seq(|ticks|, i requires 0 <= i < |ticks| => ticks[i].bio)
  }

  /**
   End to end: with a one-sample latency buffer (any latency below 0.1 s,
   including none) and no noise, the recorded stream equals the raw
   generator stream at every tick, whatever the missing rate.
   */
  lemma {:induction false} TransparentRun(v: Vitals, cache: map<real, Deque<Sample>>, cfg: Config, risks: seq<real>, ticks: seq<TickDraws>)
    requires |risks| == |ticks| && WellFormed(cache)
    requires Capacity(cfg.latency) == 1 && cfg.noiseStd <= 0.0
    ensures Run(v, cache, cfg, risks, ticks) == RawRun(v, risks, BioDraws(ticks))
    decreases |risks|
  {
    if risks != [] {
      var o := Tick(v, cache, cfg, risks[0], ticks[0]);
      TickIsTransparent(v, cache, cfg, risks[0], ticks[0]);
      TransparentRun(o.state, o.cache, cfg, risks[1..], ticks[1..]);
      var draws := BioDraws(ticks);
      assert draws[1..] == BioDraws(ticks[1..]);
    }
  }
}
