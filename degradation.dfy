/**
 The three signal-degradation stages of Code/utils.py: a latency stage that
 delays samples through one bounded FIFO per latency value (kept in a cache
 that lives as long as the process), a missing-sample stage, and an additive
 noise stage. Every random draw is a parameter.
 */
module Degradation {

  import opened Deques

  /** The update rate assumed when a latency in seconds becomes a buffer length. */
  const SampleRateHz: real := 20.0

  /** Python's int() on a float: truncation toward zero. */
  function Trunc(x: real): (n: int)
    ensures x >= 0.0 ==> n as real <= x < n as real + 1.0
    ensures x < 0.0 ==> n as real - 1.0 < x <= n as real
  {
    if x >= 0.0 then x.Floor else -((-x).Floor)
  }

  /** Buffer length for a latency: max(1, int(latency * 20)). */
  function Capacity(latency: real): (c: nat)
    ensures c >= 1
    ensures latency * SampleRateHz >= 1.0 ==> c as real <= latency * SampleRateHz < c as real + 1.0
    ensures latency * SampleRateHz < 2.0 ==> c == 1
  {
    var n := Trunc(latency * SampleRateHz);
    if n < 1 then 1 else n
  }

  /** A longer latency never gets a shorter buffer. */
  lemma CapacityMonotone(a: real, b: real)
    requires a <= b
    ensures Capacity(a) <= Capacity(b)
  {
    if a * SampleRateHz >= 0.0 {
      assert Trunc(a * SampleRateHz) <= Trunc(b * SampleRateHz);
    }
  }

  /** Every deque in the cache was created for its key and has never overflowed. */
  predicate WellFormed<T>(cache: map<real, Deque<T>>)
  {
    forall L :: L in cache ==> L > 0.0 && cache[L].maxlen == Capacity(L) && cache[L].Bounded()
  }

  /** The samples buffered under a latency, none if it has no buffer yet. */
  function Held<T>(cache: map<real, Deque<T>>, latency: real): seq<T>
  {
    if latency in cache then cache[latency].items else []
  }

  /** The samples ever appended under a latency, none before its first call. */
  ghost function Past<T>(history: map<real, seq<T>>, latency: real): seq<T>
  {
    if latency in history then history[latency] else []
  }

  /**
   The buffer apply_latency appends to: the cached one, or a fresh empty one
   of the right length on the first call with this latency.
   */
  function Buffered<T>(cache: map<real, Deque<T>>, latency: real): (d: Deque<T>)
    requires WellFormed(cache)
    ensures d.maxlen == Capacity(latency) && d.Bounded() && d.items == Held(cache, latency)
  {
    if latency in cache then cache[latency] else Deque(Capacity(latency), [])
  }

  /**
   apply_latency on the value of the cache: the new cache and the returned
   sample.
   */
  function LatencyStep<T>(cache: map<real, Deque<T>>, bio: T, latency: real): (res: (map<real, Deque<T>>, T))
    requires WellFormed(cache)
    ensures WellFormed(res.0)
    ensures latency <= 0.0 ==> res.0 == cache && res.1 == bio
    ensures latency > 0.0 ==> res.0.Keys == cache.Keys + {latency}
    ensures forall L :: L in cache && L != latency ==> res.0[L] == cache[L]
    ensures latency > 0.0 ==> res.0[latency].items == Latest(Held(cache, latency) + [bio], Capacity(latency))
    ensures latency > 0.0 ==> res.0[latency].items != [] && res.1 == res.0[latency].items[0]
  {
    if latency <= 0.0 then (cache, bio)
    else
      var buf := Buffered(cache, latency);
      assert buf.items == Latest(Held(cache, latency), buf.maxlen);
      AppendKeepsLatest(buf, Held(cache, latency), bio);
      var buf' := buf.Append(bio);
      (cache[latency := buf'], buf'.items[0])
  }

  /** With a buffer of length 1 the latency stage hands back its input. */
  lemma LatencyOfOneIsIdentity<T>(cache: map<real, Deque<T>>, bio: T, latency: real)
    requires WellFormed(cache)
    requires Capacity(latency) == 1
    ensures LatencyStep(cache, bio, latency).1 == bio
  {
    if latency > 0.0 {
      var held := Held(cache, latency) + [bio];
      assert Latest(held, 1) == [bio];
    }
  }

  /**
   The buffers agree with the history of appended samples: each holds the
   latest Capacity(L) samples appended under its latency L.
   */
  ghost predicate Coherent<T>(buffers: map<real, Deque<T>>, history: map<real, seq<T>>)
  {
    && WellFormed(buffers)
    && buffers.Keys == history.Keys
    && Tracks(buffers, history)
  }

  ghost predicate Tracks<T>(buffers: map<real, Deque<T>>, history: map<real, seq<T>>)
  {
    forall L :: L in buffers && L in history ==> history[L] != [] && buffers[L].items == Latest(history[L], buffers[L].maxlen)
  }

  lemma TracksAfterCall<T>(buffers: map<real, Deque<T>>, history: map<real, seq<T>>, d: Deque<T>, bio: T, latency: real)
    requires Tracks(buffers, history)
    requires d.items == Latest(Past(history, latency), d.maxlen)
    ensures Tracks(buffers[latency := d.Append(bio)], history[latency := Past(history, latency) + [bio]])
  {
    var b := buffers[latency := d.Append(bio)];
    var h := history[latency := Past(history, latency) + [bio]];
    AppendKeepsLatest(d, Past(history, latency), bio);
    forall L | L in b && L in h
      ensures h[L] != [] && b[L].items == Latest(h[L], b[L].maxlen)
    {
    }
  }

  lemma CoherentAfterCall<T>(buffers: map<real, Deque<T>>, history: map<real, seq<T>>, bio: T, latency: real)
    requires Coherent(buffers, history) && latency > 0.0
    ensures Coherent(buffers[latency := Buffered(buffers, latency).Append(bio)], history[latency := Past(history, latency) + [bio]])
  {
    var d := Buffered(buffers, latency);
    assert d.items == Latest(Past(history, latency), d.maxlen);
    TracksAfterCall(buffers, history, d, bio, latency);
    assert WellFormed(LatencyStep(buffers, bio, latency).0);
  }

  /**
   Under Coherent every cached buffer is exactly the deque a fresh
   deque(maxlen=Capacity(L)) becomes after the appends recorded for L.
   */
  lemma BuffersAreFills<T>(buffers: map<real, Deque<T>>, history: map<real, seq<T>>, L: real)
    requires Coherent(buffers, history) && L in buffers
    ensures buffers[L].items == Fill(Deque(Capacity(L), []), history[L]).items
  {
    FillHoldsLatest(Capacity(L), history[L]);
  }

  /**
   The process-wide cache _latency_buffers together with apply_latency.
   `history` records, per latency, every sample ever appended to its buffer.
   */
  class LatencyBuffers<T> {
    var buffers: map<real, Deque<T>>
    ghost var history: map<real, seq<T>>

    ghost predicate Valid()
      reads this
    {
      Coherent(buffers, history)
    }

    constructor ()
      ensures Valid()
      ensures buffers == map[] && history == map[]
    {
      buffers := map[];
      history := map[];
    }

    /**
     apply_latency: a latency of zero or less passes the sample through and
     touches no buffer; otherwise the sample is appended to the buffer of
     that latency (created on first use) and the buffer's oldest sample is
     returned.
     */
    method ApplyLatency(bio: T, latency: real) returns (r: T)
      requires Valid()
      modifies this
      ensures Valid()
      ensures (buffers, r) == LatencyStep(old(buffers), bio, latency)
      ensures latency <= 0.0 ==> history == old(history)
      ensures latency > 0.0 ==> history == old(history)[latency := Past(old(history), latency) + [bio]]
      ensures latency > 0.0 ==> r == history[latency][DelayIndex(|history[latency]|, Capacity(latency))]
      ensures forall L :: L in old(buffers) ==> L in buffers && buffers[L].maxlen == old(buffers)[L].maxlen
    {
      if latency <= 0.0 {
        return bio;
      }

      // The buffer is created on the first call with this latency only.
      var buf := Buffered(buffers, latency);
      ghost var past := Past(history, latency);
      CoherentAfterCall(buffers, history, bio, latency);
      buf := buf.Append(bio);
      buffers := buffers[latency := buf];
      history := history[latency := past + [bio]];
      assert history == old(history)[latency := Past(old(history), latency) + [bio]];

      r := buf.items[0];
      BuffersAreFills(buffers, history, latency);
      DelayLaw(Capacity(latency), history[latency]);
    }
  }

  /**
   apply_missing: both the "missing" branch and the other one return the
   input, so the stage never changes a sample, whatever the rate and the
   uniform draw u.
   */
  function ApplyMissing<T>(bio: T, rate: real, u: real): (r: T)
    ensures r == bio
  {
    if rate <= 0.0 then bio
    else if u < rate then bio
    else bio
  }

  /**
   apply_noise: with std > 0 every field is perturbed by its own Gaussian
   draw, given here as noise(k).
   */
  function ApplyNoise<K>(bio: map<K, real>, std: real, noise: K -> real): (r: map<K, real>)
    ensures std <= 0.0 ==> r == bio
    ensures r.Keys == bio.Keys
    ensures std > 0.0 ==> forall k :: k in bio ==> r[k] - bio[k] == noise(k)
  {
    if std <= 0.0 then bio
    else map k | k in bio :: bio[k] + noise(k)
  }
}
