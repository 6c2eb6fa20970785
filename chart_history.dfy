/**
 * The per-motor chart history: three parallel series (temperature, vibration,
 * sample time) kept to the most recent 60 samples.
 */
module ChartHistory {

  /** The window size. */
  const MaxSamples: nat := 60

  /**
   * One motor's chart series. The source keeps the sample time as a formatted
   * clock label; the model keeps the instant the label is printed from.
   */
  datatype Series = Series(temperature: seq<int>, vibration: seq<int>, timestamps: seq<int>)

  const EmptySeries: Series := Series([], [], [])

  /** The three series have one entry per sample and no more than the window holds. */
  predicate WellFormed(s: Series) {
    |s.temperature| == |s.vibration| == |s.timestamps| <= MaxSamples
  }

  /** Every motor's series is well formed. */
  predicate AllWellFormed(h: map<string, Series>) {
    forall k | k in h :: WellFormed(h[k])
  }

  function Min(a: int, b: int): int {
    if a <= b then a else b
  }

  /** The last `n` elements of `xs`, or all of them when there are fewer. */
  function LastN<T>(xs: seq<T>, n: nat): (r: seq<T>)
    ensures |r| == Min(|xs|, n)
    ensures r == xs[|xs| - |r|..]
  {
    xs[|xs| - Min(|xs|, n)..]
  }

  /** One step of the window: keep the last 59 values, then append `x`. */
  function Window<T>(xs: seq<T>, x: T): (r: seq<T>)
    ensures r == LastN(xs + [x], MaxSamples)
    ensures |r| == Min(|xs| + 1, MaxSamples) && r[|r| - 1] == x
  {
    var kept := xs[|xs| - Min(|xs|, MaxSamples - 1)..];
    assert kept + [x] == (xs + [x])[|xs| - Min(|xs|, MaxSamples - 1)..];
    kept + [x]
  }

  /** Append one sample to each of the three series. */
  function Push(s: Series, temperature: int, vibration: int, timestamp: int): (r: Series)
    ensures WellFormed(s) ==> WellFormed(r)
    ensures |r.temperature| <= MaxSamples && |r.vibration| <= MaxSamples && |r.timestamps| <= MaxSamples
    ensures r.temperature == LastN(s.temperature + [temperature], MaxSamples)
    ensures r.vibration == LastN(s.vibration + [vibration], MaxSamples)
    ensures r.timestamps == LastN(s.timestamps + [timestamp], MaxSamples)
  {
    Series(Window(s.temperature, temperature), Window(s.vibration, vibration),
           Window(s.timestamps, timestamp))
  }

  /** Record one sample for `id`, creating its series when it has none. */
  function RecordSample(h: map<string, Series>, id: string, temperature: int, vibration: int,
                        timestamp: int): (r: map<string, Series>)
    ensures r.Keys == h.Keys + {id}
    ensures forall k | k in h && k != id :: r[k] == h[k]
    ensures id !in h ==> r[id] == Series([temperature], [vibration], [timestamp])
    ensures id in h ==> r[id] == Push(h[id], temperature, vibration, timestamp)
    ensures AllWellFormed(h) ==> AllWellFormed(r)
  {
    var current := if id in h then h[id] else EmptySeries;
    var pushed := Push(current, temperature, vibration, timestamp);
    assert AllWellFormed(h) ==> WellFormed(pushed);
    h[id := pushed]
  }

  /** Feed a run of values through the window, oldest first. */
  function PushAll<T>(xs: seq<T>, ys: seq<T>): seq<T>
    decreases |ys|
  {
    if ys == [] then xs else PushAll(Window(xs, ys[0]), ys[1..])
  }

  /** Taking the last `n` of a long enough suffix is taking the last `n` of the whole. */
  lemma LastNOfSuffix<T>(c: seq<T>, k: nat, n: nat)
    requires k <= |c| && |c| - k >= Min(|c|, n)
    ensures LastN(c[k..], n) == LastN(c, n)
  {
    assert c[k..][|c| - k - Min(|c| - k, n)..] == c[|c| - Min(|c|, n)..];
  }

  /** One window step loses nothing the last `MaxSamples` of the whole run still needs. */
  lemma WindowStep<T>(xs: seq<T>, ys: seq<T>)
    requires ys != []
    ensures LastN(Window(xs, ys[0]) + ys[1..], MaxSamples) == LastN(xs + ys, MaxSamples)
  {
    var front := xs + [ys[0]];
    var k := |front| - Min(|front|, MaxSamples);
    calc {
      Window(xs, ys[0]) + ys[1..];
      front[k..] + ys[1..];
      { assert xs + ys == front + ys[1..]; }
      (xs + ys)[k..];
    }
    LastNOfSuffix(xs + ys, k, MaxSamples);
  }

  /**
   * Whatever the number of values fed in, the window holds exactly the most
   * recent `MaxSamples` of everything seen, in arrival order.
   */
  lemma {:induction false} PushAllKeepsLatest<T>(xs: seq<T>, ys: seq<T>)
    requires |xs| <= MaxSamples
    ensures PushAll(xs, ys) == LastN(xs + ys, MaxSamples)
    decreases |ys|
  {
    if ys == [] {
      assert xs + ys == xs;
    } else {
      PushAllKeepsLatest(Window(xs, ys[0]), ys[1..]);
      WindowStep(xs, ys);
    }
  }

  /** Sixty-five samples into an empty window leave sixty, starting with the sixth. */
  lemma SixtyFiveSamples<T>(ys: seq<T>)
    requires |ys| == 65
    ensures |PushAll([], ys)| == MaxSamples
    ensures PushAll([], ys) == ys[5..] && PushAll([], ys)[0] == ys[5]
  {
    PushAllKeepsLatest([], ys);
    assert [] + ys == ys;
  }
}
