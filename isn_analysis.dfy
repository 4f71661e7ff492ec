/** The TCP Initial Sequence Number analysis of the OS-fingerprinting
    subsystem: wrap-corrected differences and their gcd, per-interval
    rates and the ISR index, and the sequence-predictability (SP) index.

    Each stage is a class whose methods fill its fields in place, as in
    the source. `math.log2`, `math.sqrt` and `round` are passed in as
    function parameters: the model says where they are applied, not what
    they compute. Floating-point numbers are modelled as `real`. */
module IsnAnalysis {
  import opened Wrappers
  import opened Divisibility

  /** The exceptions the analysis raises. */
  datatype AnalysisError =
    | NoDifferences   // `reduce(math.gcd, [])` raises TypeError (fewer than two ISNs)
    | TooFewRates     // `_calculate_sp` raises ValueError (fewer than four rates)

  /** Size of the 32-bit sequence-number space (`WRAP_LIMIT`). */
  const WrapLimit: int := 0x1_0000_0000

  /** The wrap-corrected distance between two consecutive ISNs: the smaller
      of the plain distance and its complement to `WrapLimit`. For ISNs in
      the 32-bit range it never exceeds half the sequence space. */
  function WrapDiff(a: int, b: int): (r: int)
    ensures 0 <= a < WrapLimit && 0 <= b < WrapLimit ==> 0 <= r <= WrapLimit / 2
  {
    var diff := Abs(b - a);
    var wrapped := WrapLimit - diff;
    if diff <= wrapped then diff else wrapped
  }

  lemma WrapDiffSymmetric(a: int, b: int)
    ensures WrapDiff(a, b) == WrapDiff(b, a)
  {
  }

  /** For 32-bit ISNs, `WrapDiff` is the distance on the circle of sequence
      numbers: it is reached by stepping forwards or backwards from `a` to
      `b` modulo 2^32, and no step congruent to `b - a` is shorter. */
  lemma WrapDiffIsCircularDistance(a: int, b: int, k: int)
    requires 0 <= a < WrapLimit && 0 <= b < WrapLimit
    requires (b - a - k) % WrapLimit == 0
    ensures (b - a - WrapDiff(a, b)) % WrapLimit == 0 || (b - a + WrapDiff(a, b)) % WrapLimit == 0
    ensures WrapDiff(a, b) <= Abs(k)
  {
    var d, r := b - a, WrapDiff(a, b);
    if d >= 0 {
      if r == d { assert b - a - r == 0; } else { assert b - a + r == WrapLimit; }
    } else {
      if r == -d { assert b - a + r == 0; } else { assert b - a - r == -WrapLimit; }
    }
    var m := (d - k) / WrapLimit;
    assert d - k == WrapLimit * m;
    if m >= 1 {
      assert k <= d - WrapLimit;
    } else if m <= -1 {
      assert k >= d + WrapLimit;
    }
  }

  /** Number of adjacent pairs in `isns` (`range(len(isns) - 1)`). */
  function PairCount(isns: seq<int>): nat
  {
    if |isns| == 0 then 0 else |isns| - 1
  }

  /** `diff1`: one wrap-corrected difference per adjacent pair, in order. */
  function Diff1(isns: seq<int>): seq<int>
  {
    seq(PairCount(isns), i requires 0 <= i < PairCount(isns) => WrapDiff(isns[i], isns[i + 1]))
  }

  /** Stage 1: the differences of consecutive ISNs and their gcd. */
  class GreatestCommonDivisor {
    const isns: seq<int>
    var diff1: seq<int>
    var gcd: Option<int>

    constructor (isns: seq<int>)
      ensures this.isns == isns && diff1 == [] && gcd == None
    {
      this.isns := isns;
      diff1 := [];
      gcd := None;
    }

    /** Runs both steps; the gcd step fails when there are no differences. */
    method CalculateDiff1AndGcd() returns (r: Result<(seq<int>, int), AnalysisError>)
      modifies this`diff1, this`gcd
      ensures diff1 == old(diff1) + Diff1(isns)
      ensures diff1 == [] ==> gcd == old(gcd) && r == Failure(NoDifferences)
      ensures diff1 != [] ==> gcd == Some(FoldGcd(diff1)) && r == Success((diff1, FoldGcd(diff1)))
    {
      CalculateDiff1();
      var g := CalculateGcd();
      match g
      case Failure(e) => r := Failure(e);
      case Success(v) => r := Success((diff1, v));
    }

    /** Appends one wrap-corrected difference per adjacent pair of ISNs. */
    method CalculateDiff1()
      modifies this`diff1
      ensures diff1 == old(diff1) + Diff1(isns)
    {
      var i := 0;
      while i < |isns| - 1
        invariant 0 <= i <= PairCount(isns)
        invariant diff1 == old(diff1) + Diff1(isns)[..i]
      {
        var diff := Abs(isns[i + 1] - isns[i]);
        var wrappedDiff := WrapLimit - diff;
        diff1 := diff1 + [if diff <= wrappedDiff then diff else wrappedDiff];
        i := i + 1;
      }
    }

    /** Folds `math.gcd` over the differences; `reduce` raises on an empty
        list, and then the field keeps its value. */
    method CalculateGcd() returns (r: Result<int, AnalysisError>)
      modifies this`gcd
      ensures diff1 == [] ==> gcd == old(gcd) && r == Failure(NoDifferences)
      ensures diff1 != [] ==> gcd == Some(FoldGcd(diff1)) && r == Success(FoldGcd(diff1))
    {
      if diff1 == [] {
        r := Failure(NoDifferences);
      } else {
        gcd := Some(FoldGcd(diff1));
        r := Success(FoldGcd(diff1));
      }
    }
  }

  /** `diff1` has one entry per adjacent pair of ISNs, each the
      wrap-corrected difference of that pair. */
  lemma Diff1Entries(isns: seq<int>)
    ensures |Diff1(isns)| == if |isns| < 2 then 0 else |isns| - 1
    ensures forall i :: 0 <= i < |Diff1(isns)| ==> Diff1(isns)[i] == WrapDiff(isns[i], isns[i + 1])
  {
  }

  /** The gcd of the differences divides every difference, and every
      common divisor of the differences divides it; a single difference is
      its own gcd. */
  lemma GcdOfDifferences(isns: seq<int>)
    requires |isns| >= 2
    ensures |Diff1(isns)| > 0
    ensures forall i :: 0 <= i < |Diff1(isns)| ==> Divides(Abs(FoldGcd(Diff1(isns))), Diff1(isns)[i])
    ensures forall d: nat :: (forall i :: 0 <= i < |Diff1(isns)| ==> Divides(d, Diff1(isns)[i])) ==> Divides(d, FoldGcd(Diff1(isns)))
    ensures |isns| == 2 ==> FoldGcd(Diff1(isns)) == WrapDiff(isns[0], isns[1])
  {
    var s := Diff1(isns);
    var g := FoldGcd(s);
    FoldGcdDivisors(s, Abs(g));
    DividesAbs(Abs(g), g);
    DividesSelf(Abs(g));
    forall d: nat | forall i :: 0 <= i < |s| ==> Divides(d, s[i])
      ensures Divides(d, g)
    {
      FoldGcdDivisors(s, d);
    }
  }

  // ---------------------------------------------------------------------
  // Stage 2: rates and ISR

  /** The elapsed time of interval `i`. */
  function Elapsed(times: seq<real>, i: nat): real
    requires i + 1 < |times|
  {
    times[i + 1] - times[i]
  }

  /** The rates of the intervals with a strictly positive elapsed time, in
      order (the specification of `_calculate_sequence_rates`). */
  function SequenceRates(diff1: seq<int>, times: seq<real>): seq<real>
    requires |times| >= |diff1| + 1
  {
    if diff1 == [] then []
    else
      var i := |diff1| - 1;
      SequenceRates(diff1[..i], times)
        + (if Elapsed(times, i) > 0.0 then [diff1[i] as real / Elapsed(times, i)] else [])
  }

  /** The indices of the intervals among the first `n` whose elapsed time is
      strictly positive, in increasing order. */
  function KeptIntervals(n: nat, times: seq<real>): (ks: seq<nat>)
    requires |times| >= n + 1
    ensures forall j :: 0 <= j < |ks| ==> ks[j] < n
    ensures forall j, k :: 0 <= j < k < |ks| ==> ks[j] < ks[k]
    ensures forall i :: 0 <= i < n && Elapsed(times, i) > 0.0 <==> i in ks
  {
    if n == 0 then []
    else KeptIntervals(n - 1, times) + (if Elapsed(times, n - 1) > 0.0 then [n - 1] else [])
  }

  /** The rate of interval `i`. */
  function Rate(diff1: seq<int>, times: seq<real>, i: nat): real
    requires i < |diff1| && |times| >= |diff1| + 1 && Elapsed(times, i) > 0.0
  {
    diff1[i] as real / Elapsed(times, i)
  }

  /** Each kept interval contributes exactly one rate, in order, and the
      dropped intervals contribute nothing. */
  lemma {:induction false} SequenceRatesAreKeptRates(diff1: seq<int>, times: seq<real>)
    requires |times| >= |diff1| + 1
    ensures |SequenceRates(diff1, times)| == |KeptIntervals(|diff1|, times)| <= |diff1|
    ensures forall j :: 0 <= j < |SequenceRates(diff1, times)| ==>
      SequenceRates(diff1, times)[j] == Rate(diff1, times, KeptIntervals(|diff1|, times)[j])
  {
    if diff1 != [] {
      var n := |diff1| - 1;
      var init := diff1[..n];
      SequenceRatesAreKeptRates(init, times);
      var rates, initRates := SequenceRates(diff1, times), SequenceRates(init, times);
      var kept, initKept := KeptIntervals(|diff1|, times), KeptIntervals(n, times);
      assert |init| == n;
      assert rates == initRates + (if Elapsed(times, n) > 0.0 then [Rate(diff1, times, n)] else []);
      assert kept == initKept + (if Elapsed(times, n) > 0.0 then [n] else []);
      assert |initKept| <= n;
      forall j | 0 <= j < |rates|
        ensures rates[j] == Rate(diff1, times, kept[j])
      {
        if j < |initRates| {
          assert rates[j] == initRates[j] && kept[j] == initKept[j];
          assert init[initKept[j]] == diff1[initKept[j]];
        }
      }
    }
  }

  /** Arithmetic mean (`sum(s) / len(s)`). */
  function Sum(s: seq<real>): real
  {
    if s == [] then 0.0 else s[0] + Sum(s[1..])
  }

  function Mean(s: seq<real>): real
    requires |s| > 0
  {
    Sum(s) / |s| as real
  }

  /** The ISR index: left unset when there is no rate or the mean rate is
      below 1, otherwise `round(8 * log2(mean))`. */
  function Isr(rates: seq<real>, log2: real -> real, round: real -> int): Option<int>
  {
    if rates == [] || Mean(rates) < 1.0 then None else Some(round(8.0 * log2(Mean(rates))))
  }

  /** Stage 2: per-interval rates and the ISR index. */
  class CounterRate {
    const diff1: seq<int>
    const times: seq<real>
    var seqRates: seq<real>
    var isr: Option<int>

    constructor (diff1: seq<int>, times: seq<real>)
      ensures this.diff1 == diff1 && this.times == times && seqRates == [] && isr == None
    {
      this.diff1 := diff1;
      this.times := times;
      seqRates := [];
      isr := None;
    }

    /** Both steps in turn. */
    method CalculateSeqRatesAndIsr(log2: real -> real, round: real -> int) returns (rates: seq<real>, index: Option<int>)
      requires |times| >= |diff1| + 1
      modifies this`seqRates, this`isr
      ensures seqRates == old(seqRates) + SequenceRates(diff1, times)
      ensures isr == (if Isr(seqRates, log2, round) == None then old(isr) else Isr(seqRates, log2, round))
      ensures rates == seqRates && index == isr
    {
      CalculateSequenceRates();
      CalculateIsr(log2, round);
      rates, index := seqRates, isr;
    }

    /** Appends `diff1[i] / elapsed` for every interval whose elapsed time
        is strictly positive. */
    method CalculateSequenceRates()
      requires |times| >= |diff1| + 1
      modifies this`seqRates
      ensures seqRates == old(seqRates) + SequenceRates(diff1, times)
    {
      var i := 0;
      while i < |diff1|
        invariant 0 <= i <= |diff1|
        invariant seqRates == old(seqRates) + SequenceRates(diff1[..i], times)
      {
        var timeDiff := times[i + 1] - times[i];
        assert diff1[..i + 1][..i] == diff1[..i];
        if timeDiff > 0.0 {
          seqRates := seqRates + [diff1[i] as real / timeDiff];
        }
        i := i + 1;
      }
      assert diff1[..i] == diff1;
    }

    /** The early exits compute 0 but never store it, so `isr` keeps its
        previous value (`None` on a fresh object) on those paths. */
    method CalculateIsr(log2: real -> real, round: real -> int)
      modifies this`isr
      ensures isr == (if Isr(seqRates, log2, round) == None then old(isr) else Isr(seqRates, log2, round))
    {
      if seqRates == [] {
        return;
      }
      var avgRate := Sum(seqRates) / |seqRates| as real;
      if avgRate < 1.0 {
        return;
      }
      isr := Some(round(8.0 * log2(avgRate)));
    }
  }

  /** ISR is set exactly when there is at least one rate and the mean rate
      is at least 1. */
  lemma IsrSetExactly(rates: seq<real>, log2: real -> real, round: real -> int)
    ensures Isr(rates, log2, round).Some? <==> |rates| > 0 && Mean(rates) >= 1.0
  {
  }

  // ---------------------------------------------------------------------
  // Stage 3: SP

  /** The rates after the gcd rescaling: divided by the gcd when it exceeds 9. */
  function Rescaled(rates: seq<real>, gcd: int): seq<real>
  {
    if gcd > 9 then DividedBy(rates, gcd as real) else rates
  }

  /** `[x / g for x in s]`. */
  function DividedBy(s: seq<real>, g: real): (t: seq<real>)
    requires g != 0.0
    ensures |t| == |s| && forall i :: 0 <= i < |s| ==> t[i] == s[i] / g
  {
    if s == [] then [] else [s[0] / g] + DividedBy(s[1..], g)
  }

  /** Sum of squared deviations from `m`. */
  function SquaredDeviations(s: seq<real>, m: real): real
  {
    if s == [] then 0.0 else Square(s[0] - m) + SquaredDeviations(s[1..], m)
  }

  function Square(x: real): real
  {
    x * x
  }

  /** Population variance (divided by `n`, not `n - 1`). */
  function Variance(s: seq<real>): real
    requires |s| > 0
  {
    SquaredDeviations(s, Mean(s)) / |s| as real
  }

  /** The SP index from the standard deviation: floored at 0 when it is at
      most 1, otherwise `round(log2(std) * 8)`. */
  function SpFromDeviation(std: real, log2: real -> real, round: real -> int): int
  {
    if std <= 1.0 then 0 else round(log2(std) * 8.0)
  }

  /** The whole SP stage as a value. */
  function Sp(rates: seq<real>, gcd: int, log2: real -> real, sqrt: real -> real, round: real -> int): Result<int, AnalysisError>
  {
    if |rates| < 4 then Failure(TooFewRates)
    else
      var scaled := Rescaled(rates, gcd);
      Success(SpFromDeviation(sqrt(Variance(scaled)), log2, round))
  }

  /** Stage 3: the sequence predictability index. */
  class SequencePredictabilityIndex {
    var seqRates: seq<real>
    const gcd: int
    var mean: Option<real>
    var variance: Option<real>

    constructor (seqRates: seq<real>, gcd: int)
      ensures this.seqRates == seqRates && this.gcd == gcd && mean == None && variance == None
    {
      this.seqRates := seqRates;
      this.gcd := gcd;
      mean := None;
      variance := None;
    }

    /** Fails before touching any field when fewer than four rates are
        given; otherwise replaces the stored rates with the rescaled list,
        stores their mean and population variance, and derives SP from the
        standard deviation. */
    method CalculateSp(log2: real -> real, sqrt: real -> real, round: real -> int) returns (r: Result<int, AnalysisError>)
      modifies this`seqRates, this`mean, this`variance
      ensures r == Sp(old(seqRates), gcd, log2, sqrt, round)
      ensures |old(seqRates)| < 4 ==> seqRates == old(seqRates) && mean == old(mean) && variance == old(variance)
      ensures |old(seqRates)| >= 4 ==>
        && seqRates == Rescaled(old(seqRates), gcd)
        && mean == Some(Mean(seqRates))
        && variance == Some(Variance(seqRates))
    {
      if |seqRates| < 4 {
        return Failure(TooFewRates);
      }
      if gcd > 9 {
        seqRates := DividedBy(seqRates, gcd as real);
      }
      var m := CalculateMean();
      mean := Some(m);
      var v := CalculateVariance();
      variance := Some(v);
      var standardDeviation := sqrt(v);
      if standardDeviation <= 1.0 {
        r := Success(0);
      } else {
        r := Success(round(log2(standardDeviation) * 8.0));
      }
    }

    method CalculateMean() returns (m: real)
      requires |seqRates| > 0
      ensures m == Mean(seqRates)
    {
      m := Sum(seqRates) / |seqRates| as real;
    }

    /** Uses the stored mean, which `CalculateSp` sets just before. */
    method CalculateVariance() returns (v: real)
      requires |seqRates| > 0 && mean == Some(Mean(seqRates))
      ensures v == Variance(seqRates) && v >= 0.0
    {
      SquaredDeviationsNonNegative(seqRates, mean.value);
      v := SquaredDeviations(seqRates, mean.value) / |seqRates| as real;
    }
  }

  lemma {:induction false} SquaredDeviationsNonNegative(s: seq<real>, m: real)
    ensures SquaredDeviations(s, m) >= 0.0
  {
    if s != [] {
      SquaredDeviationsNonNegative(s[1..], m);
      assert Square(s[0] - m) >= 0.0;
    }
  }

  /** SP fails exactly when fewer than four rates are given, whatever the gcd. */
  lemma SpNeedsFourRates(rates: seq<real>, gcd: int, log2: real -> real, sqrt: real -> real, round: real -> int)
    ensures Sp(rates, gcd, log2, sqrt, round).Failure? <==> |rates| < 4
    ensures |rates| < 4 ==> Sp(rates, gcd, log2, sqrt, round) == Failure(TooFewRates)
  {
  }

  /** Rescaling keeps length and order, divides each rate by the gcd when
      it exceeds 9 and otherwise leaves the rates alone. */
  lemma RescaledEntries(rates: seq<real>, gcd: int)
    ensures |Rescaled(rates, gcd)| == |rates|
    ensures forall i :: 0 <= i < |rates| ==>
      Rescaled(rates, gcd)[i] == if gcd > 9 then rates[i] / gcd as real else rates[i]
  {
  }

  lemma {:induction false} SumOfScaled(s: seq<real>, g: real)
    requires g != 0.0
    ensures Sum(DividedBy(s, g)) * g == Sum(s)
  {
    var t := DividedBy(s, g);
    if s != [] {
      SumOfScaled(s[1..], g);
      assert t[1..] == DividedBy(s[1..], g);
      assert t[0] * g == s[0];
      assert Sum(t) * g == t[0] * g + Sum(t[1..]) * g;
    }
  }

  lemma {:induction false} SquaredDeviationsOfScaled(s: seq<real>, m: real, g: real)
    requires g != 0.0
    ensures SquaredDeviations(DividedBy(s, g), m / g) * (g * g) == SquaredDeviations(s, m)
  {
    if s != [] {
      var t := DividedBy(s, g);
      SquaredDeviationsOfScaled(s[1..], m, g);
      assert t[1..] == DividedBy(s[1..], g);
      DeviationScaled(s[0], m, g);
      ScaledSquareStep(s[0] - m, t[0] - m / g, g, SquaredDeviations(t[1..], m / g), SquaredDeviations(s[1..], m),
        SquaredDeviations(t, m / g), SquaredDeviations(s, m));
    }
  }

  lemma DeviationScaled(a: real, m: real, g: real)
    requires g != 0.0
    ensures (a / g - m / g) * g == a - m
  {
  }

  /** One step of the sum above: a deviation `y` scaled by `g` is `x`. */
  lemma ScaledSquareStep(x: real, y: real, g: real, rest: real, scaledRest: real, total: real, scaledTotal: real)
    requires y * g == x && rest * (g * g) == scaledRest
    requires total == Square(y) + rest && scaledTotal == Square(x) + scaledRest
    ensures total * (g * g) == scaledTotal
  {
    assert (y * y) * (g * g) == (y * g) * (y * g);
  }

  /** `(a / n) * g == (a * g) / n` and its use for means. */
  lemma ScaledQuotient(a: real, b: real, n: real, g: real)
    requires n != 0.0 && b * g == a
    ensures (b / n) * g == a / n
  {
  }

  /** Rescaling by a gcd above 9 divides the mean by the gcd ... */
  lemma RescaledMean(rates: seq<real>, gcd: int)
    requires |rates| > 0 && gcd > 9
    ensures Mean(Rescaled(rates, gcd)) * gcd as real == Mean(rates)
  {
    var g := gcd as real;
    var scaled := DividedBy(rates, g);
    SumOfScaled(rates, g);
    ScaledQuotient(Sum(rates), Sum(scaled), |rates| as real, g);
  }

  /** ... and the variance by its square. */
  lemma RescaledVariance(rates: seq<real>, gcd: int)
    requires |rates| > 0 && gcd > 9
    ensures Variance(Rescaled(rates, gcd)) * (gcd as real * gcd as real) == Variance(rates)
  {
    var g := gcd as real;
    var scaled := Rescaled(rates, gcd);
    RescaledMean(rates, gcd);
    assert Mean(scaled) == Mean(rates) / g;
    SquaredDeviationsOfScaled(rates, Mean(rates), g);
    ScaledQuotient(SquaredDeviations(rates, Mean(rates)), SquaredDeviations(scaled, Mean(scaled)), |rates| as real, g * g);
  }

  lemma {:induction false} SumOfConstant(s: seq<real>, c: real)
    requires forall i :: 0 <= i < |s| ==> s[i] == c
    ensures Sum(s) == |s| as real * c
    ensures SquaredDeviations(s, c) == 0.0
  {
    if s != [] {
      SumOfConstant(s[1..], c);
    }
  }

  /** Equal rates have that rate as their mean and no variance. */
  lemma ConstantRatesStatistics(s: seq<real>, c: real)
    requires |s| > 0 && forall i :: 0 <= i < |s| ==> s[i] == c
    ensures Mean(s) == c && Variance(s) == 0.0
  {
    SumOfConstant(s, c);
  }

  /** With a genuine square root, SP is 0 exactly when the variance is at
      most 1, so in particular whenever all rates are equal. */
  lemma SpZeroForSmallVariance(rates: seq<real>, gcd: int, log2: real -> real, sqrt: real -> real, round: real -> int)
    requires forall x :: x >= 0.0 ==> sqrt(x) >= 0.0 && sqrt(x) * sqrt(x) == x
    requires |rates| >= 4
    ensures Variance(Rescaled(rates, gcd)) <= 1.0 ==> Sp(rates, gcd, log2, sqrt, round) == Success(0)
    ensures Variance(Rescaled(rates, gcd)) > 1.0 ==>
      Sp(rates, gcd, log2, sqrt, round) == Success(round(log2(sqrt(Variance(Rescaled(rates, gcd)))) * 8.0))
    ensures (forall i, j :: 0 <= i < j < |rates| ==> rates[i] == rates[j]) ==> Sp(rates, gcd, log2, sqrt, round) == Success(0)
  {
    var scaled := Rescaled(rates, gcd);
    RescaledEntries(rates, gcd);
    var v := Variance(scaled);
    SquaredDeviationsNonNegative(scaled, Mean(scaled));
    var s := sqrt(v);
    assert s >= 0.0 && s * s == v;
    assert s > 1.0 ==> s * s > 1.0;
    assert s <= 1.0 ==> s * s <= s;
    if forall i, j :: 0 <= i < j < |rates| ==> rates[i] == rates[j] {
      forall i | 0 <= i < |scaled| ensures scaled[i] == scaled[0] {
        if i > 0 { assert rates[0] == rates[i]; }
      }
      ConstantRatesStatistics(scaled, scaled[0]);
    }
  }

  /** Six ISN samples half a second apart (the last step, 2200 to 100, is a
      plain difference of 2100, not a wrap-around): their differences, ... */
  lemma ScenarioDifferences()
    ensures Diff1([1000, 1500, 1300, 1800, 2200, 100]) == [500, 200, 500, 400, 2100]
  {
    var isns := [1000, 1500, 1300, 1800, 2200, 100];
    assert Diff1(isns)[4] == WrapDiff(2200, 100) == 2100;
  }

  /** ... the gcd of those differences, ... */
  lemma ScenarioGcd()
    ensures FoldGcd([500, 200, 500, 400, 2100]) == 100
  {
    assert Gcd(500, 200) == Gcd(200, 100) == Gcd(100, 0) == 100;
    FoldGcdAppend([500], 200);
    assert [500] + [200] == [500, 200];
    assert Gcd(100, 500) == Gcd(500, 100) == Gcd(100, 0);
    FoldGcdAppend([500, 200], 500);
    assert [500, 200] + [500] == [500, 200, 500];
    assert Gcd(100, 400) == Gcd(400, 100) == Gcd(100, 0);
    FoldGcdAppend([500, 200, 500], 400);
    assert [500, 200, 500] + [400] == [500, 200, 500, 400];
    assert Gcd(100, 2100) == Gcd(2100, 100) == Gcd(100, 0);
    FoldGcdAppend([500, 200, 500, 400], 2100);
    assert [500, 200, 500, 400] + [2100] == [500, 200, 500, 400, 2100];
  }

  /** ... and the five rates. */
  lemma ScenarioRates()
    ensures SequenceRates([500, 200, 500, 400, 2100], [0.0, 0.5, 1.0, 1.5, 2.0, 2.5])
         == [1000.0, 400.0, 1000.0, 800.0, 4200.0]
  {
    var d := [500, 200, 500, 400, 2100];
    var t := [0.0, 0.5, 1.0, 1.5, 2.0, 2.5];
    assert d[..1][..0] == [];
    assert SequenceRates(d[..1], t) == [1000.0];
    assert d[..2][..1] == d[..1];
    assert SequenceRates(d[..2], t) == [1000.0, 400.0];
    assert d[..3][..2] == d[..2];
    assert SequenceRates(d[..3], t) == [1000.0, 400.0, 1000.0];
    assert d[..4][..3] == d[..3];
    assert SequenceRates(d[..4], t) == [1000.0, 400.0, 1000.0, 800.0];
    assert d[..4] == d[..|d| - 1];
  }

  /** Hand-computed statistics: rates 1, 2, 4, 8, 16 have mean 6.2 and
      population variance 29.76; a gcd of 20 turns 100..400 into 5..20. */
  lemma StatisticsExamples()
    ensures Mean([1.0, 2.0, 4.0, 8.0, 16.0]) == 6.2
    ensures Variance([1.0, 2.0, 4.0, 8.0, 16.0]) == 29.76
    ensures Rescaled([100.0, 200.0, 300.0, 400.0], 20) == [5.0, 10.0, 15.0, 20.0]
    ensures Rescaled([100.0, 200.0, 300.0, 400.0], 9) == [100.0, 200.0, 300.0, 400.0]
  {
    var s := [1.0, 2.0, 4.0, 8.0, 16.0];
    assert Sum(s) == 31.0;
    assert SquaredDeviations(s, 6.2) == 148.8;
  }
}
