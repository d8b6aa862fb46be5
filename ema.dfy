/** The streaming exponential moving average of ema.py: one carried value,
    updated toward each new close by the smoothing factor 2 / (period + 1). */
module MovingAverage {

  /** `_K`: the smoothing factor. Python raises ZeroDivisionError for period -1. */
  function K(period: real): (k: real)
    requires period != -1.0
    ensures k * (period + 1.0) == 2.0
    ensures period >= 1.0 ==> 0.0 < k <= 1.0
    ensures period == 1.0 ==> k == 1.0
  {
    2.0 / (period + 1.0)
  }

  /** One update of the average `prev` by the close `close`. */
  function Step(period: real, prev: real, close: real): (next: real)
    requires period != -1.0
    ensures next - close == (1.0 - K(period)) * (prev - close)
    ensures close == prev ==> next == prev
    ensures period >= 1.0 ==> (prev <= next <= close || close <= next <= prev)
    ensures period == 1.0 ==> next == close
  {
    var k := K(period);
    assert k * (close - prev) == (1.0 - (1.0 - k)) * (close - prev);
    prev + k * (close - prev)
  }

  /** The average after feeding `closes` in order to an average seeded with `seed`. */
  function Fold(period: real, seed: real, closes: seq<real>): (avg: real)
    requires period != -1.0
    ensures period == 1.0 && closes != [] ==> avg == closes[|closes| - 1]
    decreases |closes|
  {
    if closes == [] then seed
    else Fold(period, Step(period, seed, closes[0]), closes[1..])
  }

  /** For period >= 1, the average never leaves a range that holds the seed and
      every close fed. */
  lemma {:induction false} FoldWithinRange(period: real, seed: real, closes: seq<real>, lo: real, hi: real)
    requires period >= 1.0
    requires lo <= seed <= hi
    requires forall i :: 0 <= i < |closes| ==> lo <= closes[i] <= hi
    ensures lo <= Fold(period, seed, closes) <= hi
    decreases |closes|
  {
    if closes != [] {
      var next := Step(period, seed, closes[0]);
      assert lo <= next <= hi;
      FoldWithinRange(period, next, closes[1..], lo, hi);
    }
  }

  /** Feeding one more close to the folded average is one more step. */
  lemma {:induction false} FoldSnoc(period: real, seed: real, closes: seq<real>, close: real)
    requires period != -1.0
    ensures Fold(period, seed, closes + [close]) == Step(period, Fold(period, seed, closes), close)
    decreases |closes|
  {
    if closes == [] {
      assert [] + [close] == [close];
      assert [close][1..] == [];
    } else {
      assert (closes + [close])[0] == closes[0];
      assert (closes + [close])[1..] == closes[1..] + [close];
      FoldSnoc(period, Step(period, seed, closes[0]), closes[1..], close);
    }
  }

  /** The close `c` fed `n` times. */
  function Repeat(c: real, n: nat): (cs: seq<real>)
    ensures |cs| == n
    ensures forall i :: 0 <= i < n ==> cs[i] == c
  {
    seq(n, _ => c)
  }

  function Pow(b: real, n: nat): (p: real)
    ensures b == 1.0 ==> p == 1.0
  {
    if n == 0 then 1.0 else b * Pow(b, n - 1)
  }

  lemma {:induction false} PowUnit(b: real, n: nat)
    requires 0.0 <= b <= 1.0
    ensures 0.0 <= Pow(b, n) <= 1.0
  {
    if n > 0 {
      PowUnit(b, n - 1);
      assert b * Pow(b, n - 1) <= 1.0 * Pow(b, n - 1);
    }
  }

  /** Feeding a constant close `c` n times scales the distance to `c` by (1 - K)^n. */
  lemma {:induction false} ConstantFeed(period: real, seed: real, c: real, n: nat)
    requires period != -1.0
    ensures Fold(period, seed, Repeat(c, n)) - c == Pow(1.0 - K(period), n) * (seed - c)
    decreases n
  {
    if n > 0 {
      var b := 1.0 - K(period);
      var next := Step(period, seed, c);
      assert Repeat(c, n)[0] == c;
      assert Repeat(c, n)[1..] == Repeat(c, n - 1);
      assert Fold(period, seed, Repeat(c, n)) == Fold(period, next, Repeat(c, n - 1));
      ConstantFeed(period, next, c, n - 1);
      Regroup(Pow(b, n - 1), b, seed - c);
    }
  }

  // Dafny proves this with an empty body; it is a separate lemma so that
  // ConstantFeed verifies on every solver seed.
  lemma Regroup(p: real, b: real, d: real)
    ensures p * (b * d) == (b * p) * d
  {
  }

  /** For period >= 1, feeding a constant close `c` any number of times never moves
      the average away from `c` and never past it. */
  lemma ConstantFeedBounded(period: real, seed: real, c: real, n: nat)
    requires period >= 1.0
    ensures seed >= c ==> c <= Fold(period, seed, Repeat(c, n)) <= seed
    ensures seed <= c ==> seed <= Fold(period, seed, Repeat(c, n)) <= c
  {
    var b := 1.0 - K(period);
    var f := Fold(period, seed, Repeat(c, n));
    ConstantFeed(period, seed, c, n);
    PowUnit(b, n);
    Shrink(Pow(b, n), seed - c, f - c);
  }

  /** Scaling by a factor in [0, 1] moves a number toward zero without crossing it. */
  lemma Shrink(p: real, d: real, scaled: real)
    requires 0.0 <= p <= 1.0
    requires scaled == p * d
    ensures d >= 0.0 ==> 0.0 <= scaled <= d
    ensures d <= 0.0 ==> d <= scaled <= 0.0
  {
    var rest := (1.0 - p) * d;
    assert rest == d - scaled;
    if d >= 0.0 {
      assert rest >= 0.0 && scaled >= 0.0;
    } else {
      assert rest <= 0.0 && scaled <= 0.0;
    }
  }

  /** Each further feed of the same close brings the average no farther from it
      and does not cross it. */
  lemma ConstantFeedCloser(period: real, seed: real, c: real, n: nat)
    requires period >= 1.0
    ensures var before := Fold(period, seed, Repeat(c, n));
            var after := Fold(period, seed, Repeat(c, n + 1));
            (before >= c ==> c <= after <= before) && (before <= c ==> before <= after <= c)
  {
    assert Repeat(c, n + 1) == Repeat(c, n) + [c];
    FoldSnoc(period, seed, Repeat(c, n), c);
  }

  /** ema.py's `EMA`: the smoothing period and the running average. The ghost fields
      remember the seed and every close fed so far. */
  class Ema {
    var period: real
    var prev: real
    ghost var seed: real
    ghost var closes: seq<real>

    ghost predicate Valid()
      reads this
    {
      period != -1.0 ==> prev == Fold(period, seed, closes)
    }

    constructor (period: real, emaPrev: real)
      ensures Valid()
      ensures this.period == period && prev == emaPrev
      ensures seed == emaPrev && closes == []
    {
      this.period := period;
      prev := emaPrev;
      seed := emaPrev;
      closes := [];
    }

    /** `next(close)`: store the stepped average and return it. The period is
        outside the frame, so it is never changed. */
    method Next(close: real) returns (r: real)
      requires Valid()
      requires period != -1.0
      modifies this`prev, this`closes
      ensures Valid()
      ensures r == prev
      ensures prev == Step(period, old(prev), close)
      ensures closes == old(closes) + [close]
      ensures prev == Fold(period, seed, closes)
    {
      FoldSnoc(period, seed, closes, close);
      var nextEma := prev + K(period) * (close - prev);
      prev := nextEma;
      closes := closes + [close];
      r := nextEma;
    }
  }
}
