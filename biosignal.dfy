/**
 The synthetic physiological signal generator of Code/biosignal.py. Heart
 rate (HR) and electrodermal activity (EDA) are state that drifts with the
 risk scalar; heart-rate variability (HRV) is recomputed on every step and
 never falls below 20. The Gaussian draws of each step are parameters.
 */
module Biosignal {

  /** A sample: the record {"HR": .., "HRV": .., "EDA": ..}. */
  type Sample = map<string, real>

  const Fields: set<string> := {"HR", "HRV", "EDA"}

  /** The floor below which HRV is clamped. */
  const HrvFloor: real := 20.0

  /** The three np.random.normal draws of one step, in the order they are taken. */
  datatype Draws = Draws(hr: real, eda: real, hrv: real)

  /** The generator's state: the current HR and EDA. */
  datatype Vitals = Vitals(hr: real, eda: real)

  /** HRV for a risk and a draw: the baseline 50 - 25 * risk plus the draw, clamped below at 20. */
  function Hrv(risk: real, draw: real): (h: real)
    ensures h >= HrvFloor
    ensures h >= 50.0 - 25.0 * risk + draw
    ensures h == 50.0 - 25.0 * risk + draw || h == HrvFloor
    ensures 50.0 - 25.0 * risk + draw >= HrvFloor ==> h == 50.0 - 25.0 * risk + draw
  {
    var raw := 50.0 - 25.0 * risk + draw;
    if raw >= HrvFloor then raw else HrvFloor
  }

  /** The state after one step: HR and EDA each move by a risk-proportional amount plus a draw. */
  function Drift(v: Vitals, risk: real, d: Draws): (w: Vitals)
    ensures risk == 0.0 && d.hr == 0.0 && d.eda == 0.0 ==> w == v
    ensures risk >= 0.0 && d.hr >= 0.0 && d.eda >= 0.0 ==> w.hr >= v.hr && w.eda >= v.eda
  {
    Vitals(v.hr + (0.2 * risk + d.hr), v.eda + (0.3 * risk + d.eda))
  }

  /** The record step returns: the updated HR and EDA with this step's HRV. */
  function Reading(v: Vitals, risk: real, hrvDraw: real): (s: Sample)
    ensures s.Keys == Fields
    ensures s["HR"] == v.hr && s["EDA"] == v.eda
    ensures s["HRV"] == Hrv(risk, hrvDraw) && s["HRV"] >= HrvFloor
  {
    map["HR" := v.hr, "HRV" := Hrv(risk, hrvDraw), "EDA" := v.eda]
  }

  class BioSignalGenerator {
    var hr: real
    var eda: real

    function State(): Vitals
      reads this
    {
      Vitals(hr, eda)
    }

    /** uniformDraw is the np.random.uniform(60, 70) draw that seeds HR. */
    constructor (uniformDraw: real)
      requires 60.0 <= uniformDraw < 70.0
      ensures 60.0 <= hr < 70.0 && eda == 0.5
      ensures State() == Vitals(uniformDraw, 0.5)
    {
      hr := uniformDraw;
      eda := 0.5;
    }

    method Step(risk: real, d: Draws) returns (s: Sample)
      modifies this
      ensures State() == Drift(old(State()), risk, d)
      ensures s == Reading(State(), risk, d.hrv)
      ensures s["HR"] == hr && s["EDA"] == eda && s["HRV"] >= HrvFloor
    {
      hr := hr + (0.2 * risk + d.hr);
      eda := eda + (0.3 * risk + d.eda);
      var hrv := Hrv(risk, d.hrv);
      s := map["HR" := hr, "HRV" := hrv, "EDA" := eda];
    }
  }

  /** The state after a run of steps, one risk and one set of draws per step. */
  function DriftAll(v: Vitals, risks: seq<real>, draws: seq<Draws>): Vitals
    requires |risks| == |draws|
    decreases |risks|
  {
    if risks == [] then v
    else
      var n := |risks| - 1;
      Drift(DriftAll(v, risks[..n], draws[..n]), risks[n], draws[n])
  }

  function Sum(xs: seq<real>): real
    decreases |xs|
  {
    if xs == [] then 0.0 else Sum(xs[..|xs| - 1]) + xs[|xs| - 1]
  }

  function HrDraws(draws: seq<Draws>): (r: seq<real>)
    ensures |r| == |draws| && forall i :: 0 <= i < |draws| ==> r[i] == draws[i].hr
  {
    seq(|draws|, i requires 0 <= i < |draws| => draws[i].hr)
  }

  function EdaDraws(draws: seq<Draws>): (r: seq<real>)
    ensures |r| == |draws| && forall i :: 0 <= i < |draws| ==> r[i] == draws[i].eda
  {
    seq(|draws|, i requires 0 <= i < |draws| => draws[i].eda)
  }

  /**
   HR and EDA drift additively: after any run of steps each has moved by its
   gain times the total risk plus the total of its own draws.
   */
  lemma {:induction false} DriftAccumulates(v: Vitals, risks: seq<real>, draws: seq<Draws>)
    requires |risks| == |draws|
    ensures DriftAll(v, risks, draws).hr == v.hr + 0.2 * Sum(risks) + Sum(HrDraws(draws))
    ensures DriftAll(v, risks, draws).eda == v.eda + 0.3 * Sum(risks) + Sum(EdaDraws(draws))
    decreases |risks|
  {
    if risks != [] {
      var n := |risks| - 1;
      DriftAccumulates(v, risks[..n], draws[..n]);
      assert HrDraws(draws)[..n] == HrDraws(draws[..n]);
      assert EdaDraws(draws)[..n] == EdaDraws(draws[..n]);
    }
  }

  /** A sum of non-negative terms is non-negative. */
  lemma {:induction false} SumNonNegative(xs: seq<real>)
    requires forall i :: 0 <= i < |xs| ==> xs[i] >= 0.0
    ensures Sum(xs) >= 0.0
    decreases |xs|
  {
    if xs != [] {
      SumNonNegative(xs[..|xs| - 1]);
    }
  }

  /**
   With non-negative risk and draws, HR and EDA never fall: they drift
   upward under sustained positive risk.
   */
  lemma DriftUpward(v: Vitals, risks: seq<real>, draws: seq<Draws>)
    requires |risks| == |draws|
    requires forall i :: 0 <= i < |risks| ==> risks[i] >= 0.0
    requires forall i :: 0 <= i < |draws| ==> draws[i].hr >= 0.0 && draws[i].eda >= 0.0
    ensures DriftAll(v, risks, draws).hr >= v.hr
    ensures DriftAll(v, risks, draws).eda >= v.eda
  {
    DriftAccumulates(v, risks, draws);
    SumNonNegative(risks);
    SumNonNegative(HrDraws(draws));
    SumNonNegative(EdaDraws(draws));
  }
}
