/**
  Appearance descriptors and the pure arithmetic the tracker applies to them:
  colour similarity, the weighted feature similarity, and the exponential
  moving average that smooths a player's descriptor towards each new sighting.
  JS numbers are modelled as reals, so there is no rounding and no NaN.
 */
module Features {

  /** The three channels of a dominant colour. */
  datatype Rgb = Rgb(r: real, g: real, b: real)

  /** The fixed-shape descriptor: dominant colour, normalised size, width/height ratio. */
  datatype FeatureVector = FeatureVector(dominantColor: Rgb, size: real, aspectRatio: real)

  /** Largest value a colour channel takes in an 8-bit image. */
  const ChannelMax: real := 255.0

  /** Weights of the colour, size and aspect-ratio terms in the combined similarity. */
  const ColorWeight: real := 0.5
  const SizeWeight: real := 0.3
  const AspectWeight: real := 0.2

  /** The smoothing factor the tracker passes to `UpdateFeatures`. */
  const SmoothingFactor: real := 0.3

  function Abs(x: real): real
  {
    if x < 0.0 then -x else x
  }

  function Max(a: real, b: real): real
  {
    if a < b then b else a
  }

  function Min(a: real, b: real): real
  {
    if a < b then a else b
  }

  predicate ChannelInRange(v: real)
  {
    0.0 <= v <= ChannelMax
  }

  predicate ColorInRange(c: Rgb)
  {
    ChannelInRange(c.r) && ChannelInRange(c.g) && ChannelInRange(c.b)
  }

  /** One minus the mean per-channel difference, each difference scaled by 1/255. */
  function ColorSimilarity(c1: Rgb, c2: Rgb): (sim: real)
    ensures sim <= 1.0
    ensures sim == 1.0 <==> c1 == c2
    ensures ColorInRange(c1) && ColorInRange(c2) ==> 0.0 <= sim
  {
    var rDiff := Abs(c1.r - c2.r) / ChannelMax;
    var gDiff := Abs(c1.g - c2.g) / ChannelMax;
    var bDiff := Abs(c1.b - c2.b) / ChannelMax;
    1.0 - (rDiff + gDiff + bDiff) / 3.0
  }

  /** Size term: one minus the absolute size difference, clamped at zero. */
  function SizeSimilarity(s1: real, s2: real): (sim: real)
    ensures 0.0 <= sim <= 1.0
    ensures sim == 1.0 <==> s1 == s2
  {
    Max(0.0, 1.0 - Abs(s1 - s2))
  }

  /** Aspect term: one minus twice the absolute ratio difference, clamped at zero. */
  function AspectSimilarity(a1: real, a2: real): (sim: real)
    ensures 0.0 <= sim <= 1.0
    ensures sim == 1.0 <==> a1 == a2
  {
    Max(0.0, 1.0 - Abs(a1 - a2) * 2.0)
  }

  /**
    The weighted similarity the tracker uses both for scoring candidate
    detections and for re-identification. It reaches 1 exactly on identical
    descriptors, never exceeds 1, and is non-negative for 8-bit colours.
   */
  function FeatureSimilarity(f1: FeatureVector, f2: FeatureVector): (sim: real)
    ensures sim <= 1.0
    ensures sim == 1.0 <==> f1 == f2
    ensures ColorInRange(f1.dominantColor) && ColorInRange(f2.dominantColor) ==> 0.0 <= sim
  {
    var colorSim := ColorSimilarity(f1.dominantColor, f2.dominantColor);
    var sizeSim := SizeSimilarity(f1.size, f2.size);
    var aspectSim := AspectSimilarity(f1.aspectRatio, f2.aspectRatio);
    colorSim * ColorWeight + sizeSim * SizeWeight + aspectSim * AspectWeight
  }

  /** Swapping the descriptors does not change the similarity. */
  lemma {:induction false} FeatureSimilaritySymmetric(f1: FeatureVector, f2: FeatureVector)
    ensures FeatureSimilarity(f1, f2) == FeatureSimilarity(f2, f1)
  {
    var c1, c2 := f1.dominantColor, f2.dominantColor;
    assert Abs(c1.r - c2.r) == Abs(c2.r - c1.r);
    assert Abs(c1.g - c2.g) == Abs(c2.g - c1.g);
    assert Abs(c1.b - c2.b) == Abs(c2.b - c1.b);
    assert ColorSimilarity(c1, c2) == ColorSimilarity(c2, c1);
    assert SizeSimilarity(f1.size, f2.size) == SizeSimilarity(f2.size, f1.size) by {
      assert Abs(f1.size - f2.size) == Abs(f2.size - f1.size);
    }
    assert AspectSimilarity(f1.aspectRatio, f2.aspectRatio) == AspectSimilarity(f2.aspectRatio, f1.aspectRatio) by {
      assert Abs(f1.aspectRatio - f2.aspectRatio) == Abs(f2.aspectRatio - f1.aspectRatio);
    }
  }

  /** One step of the exponential moving average `current·(1−α) + incoming·α`. */
  function Ema(current: real, incoming: real, alpha: real): real
  {
    current * (1.0 - alpha) + incoming * alpha
  }

  /**
    A smoothing step lands between the old and the incoming value, and it
    shrinks the gap to the incoming value by the factor `1−α`.
   */
  lemma {:induction false} EmaBetweenShrinksGap(current: real, incoming: real, alpha: real)
    requires 0.0 <= alpha <= 1.0
    ensures Ema(current, incoming, alpha) - incoming == (1.0 - alpha) * (current - incoming)
    ensures BetweenReal(Ema(current, incoming, alpha), current, incoming)
  {
    var r := Ema(current, incoming, alpha);
    assert r - incoming == (1.0 - alpha) * (current - incoming);
    assert r - current == alpha * (incoming - current);
    if current <= incoming {
      MulNonNegative(1.0 - alpha, incoming - current);
      MulNonNegative(alpha, incoming - current);
    } else {
      MulNonNegative(1.0 - alpha, current - incoming);
      MulNonNegative(alpha, current - incoming);
    }
  }

  lemma {:induction false} MulNonNegative(a: real, b: real)
    requires 0.0 <= a && 0.0 <= b
    ensures 0.0 <= a * b
  {
  }

  /** The smoothing `updateFeatures` performs, applied to every channel and scalar. */
  function UpdateFeatures(current: FeatureVector, incoming: FeatureVector, alpha: real): (r: FeatureVector)
    requires 0.0 <= alpha <= 1.0
    ensures Between(r, current, incoming)
    ensures current == incoming ==> r == current
    ensures alpha == 1.0 ==> r == incoming
  {
    EmaBetweenShrinksGap(current.dominantColor.r, incoming.dominantColor.r, alpha);
    EmaBetweenShrinksGap(current.dominantColor.g, incoming.dominantColor.g, alpha);
    EmaBetweenShrinksGap(current.dominantColor.b, incoming.dominantColor.b, alpha);
    EmaBetweenShrinksGap(current.size, incoming.size, alpha);
    EmaBetweenShrinksGap(current.aspectRatio, incoming.aspectRatio, alpha);
    FeatureVector(
      Rgb(Ema(current.dominantColor.r, incoming.dominantColor.r, alpha),
          Ema(current.dominantColor.g, incoming.dominantColor.g, alpha),
          Ema(current.dominantColor.b, incoming.dominantColor.b, alpha)),
      Ema(current.size, incoming.size, alpha),
      Ema(current.aspectRatio, incoming.aspectRatio, alpha))
  }

  predicate BetweenReal(v: real, a: real, b: real)
  {
    Min(a, b) <= v <= Max(a, b)
  }

  /** Every component of `f` lies between the matching components of `a` and `b`. */
  predicate Between(f: FeatureVector, a: FeatureVector, b: FeatureVector)
  {
    && BetweenReal(f.dominantColor.r, a.dominantColor.r, b.dominantColor.r)
    && BetweenReal(f.dominantColor.g, a.dominantColor.g, b.dominantColor.g)
    && BetweenReal(f.dominantColor.b, a.dominantColor.b, b.dominantColor.b)
    && BetweenReal(f.size, a.size, b.size)
    && BetweenReal(f.aspectRatio, a.aspectRatio, b.aspectRatio)
  }

  /** Smoothing keeps 8-bit colours 8-bit. */
  lemma {:induction false} UpdateFeaturesKeepsColorRange(current: FeatureVector, incoming: FeatureVector, alpha: real)
    requires 0.0 <= alpha <= 1.0
    requires ColorInRange(current.dominantColor) && ColorInRange(incoming.dominantColor)
    ensures ColorInRange(UpdateFeatures(current, incoming, alpha).dominantColor)
  {
  }

  function Pow(x: real, n: nat): real
  {
    if n == 0 then 1.0 else Pow(x, n - 1) * x
  }

  /** `n` successive smoothing steps of one scalar towards the same incoming value. */
  function EmaIterate(current: real, incoming: real, alpha: real, n: nat): real
    requires 0.0 <= alpha <= 1.0
  {
    if n == 0 then current else Ema(EmaIterate(current, incoming, alpha, n - 1), incoming, alpha)
  }

  /**
    Convergence of the smoothing: after `n` steps towards a fixed value the
    remaining gap is exactly `(1−α)^n` times the initial gap.
   */
  lemma {:induction false} EmaIterateGap(current: real, incoming: real, alpha: real, n: nat)
    requires 0.0 <= alpha <= 1.0
    ensures EmaIterate(current, incoming, alpha, n) - incoming == Pow(1.0 - alpha, n) * (current - incoming)
  {
    if n > 0 {
      var x := EmaIterate(current, incoming, alpha, n - 1);
      var p := Pow(1.0 - alpha, n - 1);
      EmaIterateGap(current, incoming, alpha, n - 1);
      EmaGapStep(x, incoming, alpha, p, current - incoming);
      assert EmaIterate(current, incoming, alpha, n) == Ema(x, incoming, alpha);
      assert Pow(1.0 - alpha, n) == p * (1.0 - alpha);
    }
  }

  /** One smoothing step multiplies the gap to the incoming value by `1−α`. */
  lemma {:induction false} EmaGapStep(x: real, incoming: real, alpha: real, p: real, d: real)
    requires 0.0 <= alpha <= 1.0
    requires x - incoming == p * d
    ensures Ema(x, incoming, alpha) - incoming == (p * (1.0 - alpha)) * d
  {
    var q := 1.0 - alpha;
    EmaBetweenShrinksGap(x, incoming, alpha);
    assert q * (p * d) == (p * q) * d;
  }

  /** `n` successive `UpdateFeatures` steps towards the same incoming descriptor. */
  function UpdateFeaturesIterate(current: FeatureVector, incoming: FeatureVector, alpha: real, n: nat): FeatureVector
    requires 0.0 <= alpha <= 1.0
  {
    if n == 0 then current else UpdateFeatures(UpdateFeaturesIterate(current, incoming, alpha, n - 1), incoming, alpha)
  }

  /** Repeated smoothing of a whole descriptor acts on every component independently. */
  lemma {:induction false} UpdateFeaturesIterateComponents(current: FeatureVector, incoming: FeatureVector, alpha: real, n: nat)
    requires 0.0 <= alpha <= 1.0
    ensures var f := UpdateFeaturesIterate(current, incoming, alpha, n);
      && f.dominantColor.r == EmaIterate(current.dominantColor.r, incoming.dominantColor.r, alpha, n)
      && f.dominantColor.g == EmaIterate(current.dominantColor.g, incoming.dominantColor.g, alpha, n)
      && f.dominantColor.b == EmaIterate(current.dominantColor.b, incoming.dominantColor.b, alpha, n)
      && f.size == EmaIterate(current.size, incoming.size, alpha, n)
      && f.aspectRatio == EmaIterate(current.aspectRatio, incoming.aspectRatio, alpha, n)
  {
    if n > 0 {
      UpdateFeaturesIterateComponents(current, incoming, alpha, n - 1);
    }
  }
}
