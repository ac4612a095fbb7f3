/** Bayesian knowledge tracing: the posterior probability that a student has
    mastered a knowledge component after one observed answer, with the slip
    and guess probabilities optionally scaled by the question's difficulty.
    Arithmetic is on exact reals. */
module KnowledgeTracing {
  import opened Wrappers

  /** Python's `max(lo, min(hi, x))`. */
  function Clamp(x: real, lo: real, hi: real): real {
    var upper := if hi < x then hi else x;
    if lo > upper then lo else upper
  }

  /** The tracer's two parameters, fixed when it is constructed. */
  datatype Tracer = Tracer(slipProb: real, guessProb: real) {
    /** Both parameters lie in [0.01, 0.5]. */
    predicate Valid() {
      0.01 <= slipProb <= 0.5 && 0.01 <= guessProb <= 0.5
    }
  }

  /** The result of one update: the posterior `value` and a separate
      `confidence` signal. */
  datatype KnowledgeEstimate = KnowledgeEstimate(value: real, confidence: real)

  /** The constructor clamps both parameters into [0.01, 0.5]. */
  function NewTracer(slipProb: real, guessProb: real): (t: Tracer)
    ensures t.Valid()
    ensures 0.01 <= slipProb <= 0.5 ==> t.slipProb == slipProb
    ensures 0.01 <= guessProb <= 0.5 ==> t.guessProb == guessProb
    ensures slipProb < 0.01 ==> t.slipProb == 0.01
    ensures slipProb > 0.5 ==> t.slipProb == 0.5
    ensures guessProb < 0.01 ==> t.guessProb == 0.01
    ensures guessProb > 0.5 ==> t.guessProb == 0.5
  {
    Tracer(Clamp(slipProb, 0.01, 0.5), Clamp(guessProb, 0.01, 0.5))
  }

  /** The tracer built with the default arguments. */
  function DefaultTracer(): Tracer {
    NewTracer(0.1, 0.2)
  }

  /** The slip probability used for a question of the given difficulty
      (clamped into [0, 1]); without a difficulty the configured one. */
  function AdjustedSlip(t: Tracer, difficulty: Option<real>): real {
    if difficulty.None? then t.slipProb
    else t.slipProb * (0.5 + 0.5 * Clamp(difficulty.value, 0.0, 1.0))
  }

  /** The guess probability used for a question of the given difficulty. */
  function AdjustedGuess(t: Tracer, difficulty: Option<real>): real {
    if difficulty.None? then t.guessProb
    else t.guessProb * (1.0 - 0.5 * Clamp(difficulty.value, 0.0, 1.0))
  }

  /** P(answer | known) * P(known) for the observed answer. */
  function Numerator(prior: real, isCorrect: bool, slip: real, guess: real): real {
    if isCorrect then (1.0 - slip) * prior else slip * prior
  }

  /** P(answer) for the observed answer. */
  function Denominator(prior: real, isCorrect: bool, slip: real, guess: real): real {
    if isCorrect then (1.0 - slip) * prior + guess * (1.0 - prior)
    else slip * prior + (1.0 - guess) * (1.0 - prior)
  }

  /** Bayes' rule conditioned on the observed outcome, with the denominator
      floored at 0.001, before the final clamp. */
  function Posterior(prior: real, isCorrect: bool, slip: real, guess: real): real {
    var denominator := Denominator(prior, isCorrect, slip, guess);
    Numerator(prior, isCorrect, slip, guess) / (if denominator < 0.001 then 0.001 else denominator)
  }

  /** Whether the (clamped) prior predicted the observed outcome. */
  predicate OutcomeMatchesPrediction(prior: real, isCorrect: bool) {
    (prior > 0.5 && isCorrect) || (prior < 0.5 && !isCorrect)
  }

  /** The confidence rule: raised toward 1 when the outcome matches the
      prediction, otherwise lowered by 0.1 but not below 0.5. */
  function Confidence(prior: real, isCorrect: bool): real {
    if OutcomeMatchesPrediction(prior, isCorrect) then
      var raised := prior + 0.1 * (1.0 - prior);
      if 1.0 < raised then 1.0 else raised
    else
      var lowered := prior - 0.1;
      if 0.5 > lowered then 0.5 else lowered
  }

  /** `update_knowledge(prior, is_correct, difficulty)`.  It reads only its
      arguments and the tracer's two parameters. */
  function UpdateKnowledge(t: Tracer, prior: real, isCorrect: bool, difficulty: Option<real>): (e: KnowledgeEstimate)
    ensures 0.01 <= e.value <= 0.99
    ensures e.confidence <= 1.0
    ensures !OutcomeMatchesPrediction(Clamp(prior, 0.01, 0.99), isCorrect) ==> e.confidence >= 0.5
    ensures prior == 0.5 ==> e.confidence == 0.5
  {
    var p := Clamp(prior, 0.01, 0.99);
    var posterior := Posterior(p, isCorrect, AdjustedSlip(t, difficulty), AdjustedGuess(t, difficulty));
    KnowledgeEstimate(Clamp(posterior, 0.01, 0.99), Confidence(p, isCorrect))
  }

  // ---------------------------------------------------------------------
  // Properties
  // ---------------------------------------------------------------------

  /** For a valid tracer, the effective slip and guess stay in [0.005, 0.5]
      whatever the difficulty. */
  lemma AdjustedBounds(t: Tracer, difficulty: Option<real>)
    requires t.Valid()
    ensures 0.005 <= AdjustedSlip(t, difficulty) <= 0.5
    ensures 0.005 <= AdjustedGuess(t, difficulty) <= 0.5
  {
    if difficulty.Some? {
      var c := Clamp(difficulty.value, 0.0, 1.0);
      assert 0.5 <= 0.5 + 0.5 * c <= 1.0;
      assert 0.5 <= 1.0 - 0.5 * c <= 1.0;
      MulBounds(t.slipProb, 0.5 + 0.5 * c);
      MulBounds(t.guessProb, 1.0 - 0.5 * c);
    }
  }

  lemma MulBounds(x: real, f: real)
    requires 0.01 <= x <= 0.5 && 0.5 <= f <= 1.0
    ensures 0.005 <= x * f <= 0.5
  {
    assert x * f <= x * 1.0;
    assert x * f >= x * 0.5;
  }

  /** A harder question never lowers the effective slip and never raises the
      effective guess. */
  lemma DifficultyMonotone(t: Tracer, d1: real, d2: real)
    requires t.Valid() && d1 <= d2
    ensures AdjustedSlip(t, Some(d1)) <= AdjustedSlip(t, Some(d2))
    ensures AdjustedGuess(t, Some(d1)) >= AdjustedGuess(t, Some(d2))
  {
    var c1, c2 := Clamp(d1, 0.0, 1.0), Clamp(d2, 0.0, 1.0);
    assert c1 <= c2;
    ScaleMonotone(t.slipProb, 0.5 + 0.5 * c1, 0.5 + 0.5 * c2);
    assert AdjustedSlip(t, Some(d1)) == t.slipProb * (0.5 + 0.5 * c1);
    assert AdjustedSlip(t, Some(d2)) == t.slipProb * (0.5 + 0.5 * c2);
    ScaleMonotone(t.guessProb, 1.0 - 0.5 * c2, 1.0 - 0.5 * c1);
  }

  lemma ScaleMonotone(x: real, f1: real, f2: real)
    requires x >= 0.0 && f1 <= f2
    ensures x * f1 <= x * f2
  {
    assert x * f2 - x * f1 == x * (f2 - f1);
  }

  /** With the default parameters, a prior of 0.5, a correct answer and no
      difficulty, the posterior is exactly 0.45 / 0.55. */
  lemma DefaultCorrectFromEvenPrior()
    ensures UpdateKnowledge(DefaultTracer(), 0.5, true, None) == KnowledgeEstimate(0.45 / 0.55, 0.5)
  {
    var t := DefaultTracer();
    assert t == Tracer(0.1, 0.2);
    assert Posterior(0.5, true, 0.1, 0.2) == 0.45 / 0.55;
  }

  /** Clamping keeps order. */
  lemma ClampMonotone(x: real, y: real, lo: real, hi: real)
    requires x <= y
    ensures Clamp(x, lo, hi) <= Clamp(y, lo, hi)
  {
  }

  /** `a / e <= a / d` when `0 < d <= e` and `a >= 0`. */
  lemma DivideByLarger(a: real, d: real, e: real)
    requires a >= 0.0 && 0.0 < d <= e
    ensures a / e <= a / d
  {
    assert a / e == (a / d) * (d / e);
    assert d / e <= 1.0;
    ScaleMonotone(a / d, d / e, 1.0);
  }

  /** Products of non-negative lower bounds bound the product. */
  lemma ProductLowerBound(x: real, y: real, lx: real, ly: real)
    requires 0.0 <= lx <= x && 0.0 <= ly <= y
    ensures lx * ly <= x * y
  {
    ScaleMonotone(lx, ly, y);
    ScaleMonotone(y, lx, x);
  }

  /** For a valid tracer the denominator is at least 0.005, so the 0.001
      floor never applies. */
  lemma DenominatorAboveFloor(p: real, isCorrect: bool, slip: real, guess: real)
    requires 0.01 <= p <= 0.99 && 0.005 <= slip <= 0.5 && 0.005 <= guess <= 0.5
    ensures Denominator(p, isCorrect, slip, guess) >= 0.005
  {
    if isCorrect {
      ProductLowerBound(1.0 - slip, p, 0.5, 0.01);
      ProductLowerBound(guess, 1.0 - p, 0.0, 0.0);
    } else {
      ProductLowerBound(slip, p, 0.0, 0.0);
      ProductLowerBound(1.0 - guess, 1.0 - p, 0.5, 0.01);
    }
  }

  /** Away from the floor, the posterior is the plain Bayes ratio. */
  lemma PosteriorIsRatio(p: real, isCorrect: bool, slip: real, guess: real)
    requires Denominator(p, isCorrect, slip, guess) >= 0.005
    ensures Posterior(p, isCorrect, slip, guess) == Numerator(p, isCorrect, slip, guess) / Denominator(p, isCorrect, slip, guess)
  {
  }

  /** Because slip and guess are at most 0.5, a correct answer never lowers
      the (clamped) prior and an incorrect one never raises it. */
  lemma OutcomeDirection(t: Tracer, prior: real, isCorrect: bool, difficulty: Option<real>)
    requires t.Valid()
    ensures isCorrect ==> UpdateKnowledge(t, prior, isCorrect, difficulty).value >= Clamp(prior, 0.01, 0.99)
    ensures !isCorrect ==> UpdateKnowledge(t, prior, isCorrect, difficulty).value <= Clamp(prior, 0.01, 0.99)
  {
    var p := Clamp(prior, 0.01, 0.99);
    var slip, guess := AdjustedSlip(t, difficulty), AdjustedGuess(t, difficulty);
    AdjustedBounds(t, difficulty);
    DenominatorAboveFloor(p, isCorrect, slip, guess);
    PosteriorIsRatio(p, isCorrect, slip, guess);
    var num, den := Numerator(p, isCorrect, slip, guess), Denominator(p, isCorrect, slip, guess);
    var post := Posterior(p, isCorrect, slip, guess);
    assert post == num / den;
    if isCorrect {
      CorrectRatioAtLeastPrior(p, slip, guess);
      ClampMonotone(p, post, 0.01, 0.99);
    } else {
      IncorrectRatioAtMostPrior(p, slip, guess);
      ClampMonotone(post, p, 0.01, 0.99);
    }
  }

  /** (1 - s) p / ((1 - s) p + g (1 - p)) >= p when g <= 1 - s. */
  lemma CorrectRatioAtLeastPrior(p: real, slip: real, guess: real)
    requires 0.01 <= p <= 0.99 && 0.005 <= slip <= 0.5 && 0.005 <= guess <= 0.5
    requires Denominator(p, true, slip, guess) > 0.0
    ensures Numerator(p, true, slip, guess) / Denominator(p, true, slip, guess) >= p
  {
    var a := 1.0 - slip;
    var num := a * p;
    var den := a * p + guess * (1.0 - p);
    DenominatorAboveFloor(p, true, slip, guess);
    ScaleMonotone(1.0 - p, guess, a);
    assert (1.0 - p) * guess <= (1.0 - p) * a;
    assert den <= a * p + a * (1.0 - p);
    assert a * p + a * (1.0 - p) == a;
    DivideByLarger(num, den, a);
    assert num / a == p;
  }

  /** s p / (s p + (1 - g) (1 - p)) <= p when s <= 1 - g. */
  lemma IncorrectRatioAtMostPrior(p: real, slip: real, guess: real)
    requires 0.01 <= p <= 0.99 && 0.005 <= slip <= 0.5 && 0.005 <= guess <= 0.5
    requires Denominator(p, false, slip, guess) > 0.0
    ensures Numerator(p, false, slip, guess) / Denominator(p, false, slip, guess) <= p
  {
    var b := 1.0 - guess;
    var num := slip * p;
    var den := slip * p + b * (1.0 - p);
    ScaleMonotone(1.0 - p, slip, b);
    assert (1.0 - p) * slip <= (1.0 - p) * b;
    assert den >= slip * p + slip * (1.0 - p);
    assert slip * p + slip * (1.0 - p) == slip;
    ProductLowerBound(slip, p, 0.0, 0.0);
    DivideByLarger(num, slip, den);
    assert num / slip == p;
  }

  /** The Bayes ratio a*p / (a*p + b*(1 - p)) grows with p. */
  lemma BayesRatioMonotone(a: real, b: real, p1: real, p2: real)
    requires a > 0.0 && b > 0.0 && 0.0 < p1 <= p2 < 1.0
    ensures a * p1 + b * (1.0 - p1) > 0.0 && a * p2 + b * (1.0 - p2) > 0.0
    ensures a * p1 / (a * p1 + b * (1.0 - p1)) <= a * p2 / (a * p2 + b * (1.0 - p2))
  {
    ProductLowerBound(a, p1, 0.0, 0.0);
    ProductLowerBound(a, p2, 0.0, 0.0);
    ProductLowerBound(b, 1.0 - p1, 0.0, 0.0);
    ProductLowerBound(b, 1.0 - p2, 0.0, 0.0);
    assert a * p1 > 0.0 by { StrictPositive(a, p1); }
    assert a * p2 > 0.0 by { StrictPositive(a, p2); }
    var d1, d2 := a * p1 + b * (1.0 - p1), a * p2 + b * (1.0 - p2);
    // cross-multiplied: a*p1*d2 <= a*p2*d1, their difference being a*b*(p2 - p1)
    assert a * p2 * d1 - a * p1 * d2 == a * b * (p2 - p1);
    ProductLowerBound(a * b, p2 - p1, 0.0, 0.0);
    CrossMultiply(a * p1, d1, a * p2, d2);
  }

  lemma StrictPositive(x: real, y: real)
    requires x > 0.0 && y > 0.0
    ensures x * y > 0.0
  {
  }

  lemma CrossMultiply(x: real, y: real, u: real, v: real)
    requires y > 0.0 && v > 0.0 && x * v <= u * y
    ensures x / y <= u / v
  {
    assert x / y == (x * v) / (y * v);
    assert u / v == (u * y) / (y * v);
  }

  /** Below the clamp, the posterior is non-decreasing in the prior. */
  lemma PosteriorMonotone(p1: real, p2: real, isCorrect: bool, slip: real, guess: real)
    requires 0.01 <= p1 <= p2 <= 0.99 && 0.005 <= slip <= 0.5 && 0.005 <= guess <= 0.5
    ensures Posterior(p1, isCorrect, slip, guess) <= Posterior(p2, isCorrect, slip, guess)
  {
    DenominatorAboveFloor(p1, isCorrect, slip, guess);
    DenominatorAboveFloor(p2, isCorrect, slip, guess);
    PosteriorIsRatio(p1, isCorrect, slip, guess);
    PosteriorIsRatio(p2, isCorrect, slip, guess);
    var a, b := if isCorrect then 1.0 - slip else slip, if isCorrect then guess else 1.0 - guess;
    RatioForm(p1, isCorrect, slip, guess, a, b);
    RatioForm(p2, isCorrect, slip, guess, a, b);
    BayesRatioMonotone(a, b, p1, p2);
  }

  /** The numerator and denominator as a*p and a*p + b*(1 - p). */
  lemma RatioForm(p: real, isCorrect: bool, slip: real, guess: real, a: real, b: real)
    requires a == (if isCorrect then 1.0 - slip else slip)
    requires b == (if isCorrect then guess else 1.0 - guess)
    ensures Numerator(p, isCorrect, slip, guess) == a * p
    ensures Denominator(p, isCorrect, slip, guess) == a * p + b * (1.0 - p)
  {
  }

  /** For a fixed outcome and difficulty, the value is non-decreasing in the
      prior. */
  lemma MonotoneInPrior(t: Tracer, prior1: real, prior2: real, isCorrect: bool, difficulty: Option<real>)
    requires t.Valid() && prior1 <= prior2
    ensures UpdateKnowledge(t, prior1, isCorrect, difficulty).value <= UpdateKnowledge(t, prior2, isCorrect, difficulty).value
  {
    var p1, p2 := Clamp(prior1, 0.01, 0.99), Clamp(prior2, 0.01, 0.99);
    ClampMonotone(prior1, prior2, 0.01, 0.99);
    var slip, guess := AdjustedSlip(t, difficulty), AdjustedGuess(t, difficulty);
    AdjustedBounds(t, difficulty);
    PosteriorMonotone(p1, p2, isCorrect, slip, guess);
    var q1, q2 := Posterior(p1, isCorrect, slip, guess), Posterior(p2, isCorrect, slip, guess);
    ClampMonotone(q1, q2, 0.01, 0.99);
    assert UpdateKnowledge(t, prior1, isCorrect, difficulty).value == Clamp(q1, 0.01, 0.99);
    assert UpdateKnowledge(t, prior2, isCorrect, difficulty).value == Clamp(q2, 0.01, 0.99);
  }

  /** The confidence rule does not keep confidence in [0.5, 1]: a low prior
      confirmed by an incorrect answer yields 0.2 + 0.1 * 0.8 = 0.28. */
  lemma ConfirmedLowPriorConfidence(t: Tracer, difficulty: Option<real>)
    ensures UpdateKnowledge(t, 0.2, false, difficulty).confidence == 0.28
  {
  }
}
