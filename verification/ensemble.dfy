/**
 * The ensemble decision: each of three class-1 probabilities is turned into a
 * 0/1 prediction by an inclusive threshold, the predictions are added up into
 * votes, and the final risk is High on a majority of two or three votes.
 */
module Ensemble {

  datatype Risk = High | Low

  /** The cut-off at which one model's probability counts as a High vote (inclusive). */
  const Threshold: real := 0.25

  /** One model's 0/1 prediction from its class-1 probability. */
  function Prediction(prob: real): int
  {
    if prob >= Threshold then 1 else 0
  }

  /** The per-model label shown beside a prediction. */
  function RiskOf(pred: int): Risk
  {
    if pred == 1 then High else Low
  }

  /** The ensemble label for a number of High votes. */
  function FinalRisk(votes: int): Risk
  {
    if votes >= 2 then High else Low
  }

  /** The exact mean of the three probabilities (before any rounding). */
  function Average(lr: real, dt: real, rf: real): (mean: real)
    ensures 3.0 * mean == lr + dt + rf
  {
    (lr + dt + rf) / 3.0
  }

  function Min3(a: real, b: real, c: real): real
  {
    if a <= b && a <= c then a else if b <= c then b else c
  }

  function Max3(a: real, b: real, c: real): real
  {
    if a >= b && a >= c then a else if b >= c then b else c
  }

  predicate IsProbability(p: real)
  {
    0.0 <= p <= 1.0
  }

  /** Reference count: how many of the probabilities reach the threshold. */
  function HighCount(probs: seq<real>): (n: nat)
    ensures n <= |probs|
  {
    if probs == [] then 0
    else (if probs[0] >= Threshold then 1 else 0) + HighCount(probs[1..])
  }

  /** Some model reaches the threshold. */
  predicate SomeReachThreshold(probs: seq<real>)
  {
    exists i :: 0 <= i < |probs| && probs[i] >= Threshold
  }

  /** Reference notion of a majority: two different models reach the threshold. */
  predicate TwoReachThreshold(probs: seq<real>)
  {
    exists i, j :: 0 <= i < j < |probs| && probs[i] >= Threshold && probs[j] >= Threshold
  }

  /** At least two of three labels are High. */
  predicate AtLeastTwoHigh(a: Risk, b: Risk, c: Risk)
  {
    (a == High && b == High) || (a == High && c == High) || (b == High && c == High)
  }

  lemma {:induction false} OneVoteIffSomeReach(probs: seq<real>)
    ensures HighCount(probs) >= 1 <==> SomeReachThreshold(probs)
  {
    if probs != [] {
      var rest := probs[1..];
      OneVoteIffSomeReach(rest);
      if SomeReachThreshold(rest) {
        var i :| 0 <= i < |rest| && rest[i] >= Threshold;
        assert probs[i + 1] >= Threshold;
      }
      if SomeReachThreshold(probs) {
        var i :| 0 <= i < |probs| && probs[i] >= Threshold;
        if i > 0 {
          assert rest[i - 1] >= Threshold;
        }
      }
    }
  }

  /** Two or more votes is the same as two distinct models reaching the threshold. */
  lemma {:induction false} TwoVotesIffTwoReach(probs: seq<real>)
    ensures HighCount(probs) >= 2 <==> TwoReachThreshold(probs)
  {
    if probs != [] {
      var rest := probs[1..];
      TwoVotesIffTwoReach(rest);
      OneVoteIffSomeReach(rest);
      if HighCount(probs) >= 2 {
        if probs[0] >= Threshold {
          var j :| 0 <= j < |rest| && rest[j] >= Threshold;
          assert probs[0] >= Threshold && probs[j + 1] >= Threshold;
        } else {
          var i, j :| 0 <= i < j < |rest| && rest[i] >= Threshold && rest[j] >= Threshold;
          assert probs[i + 1] >= Threshold && probs[j + 1] >= Threshold;
        }
      }
      if TwoReachThreshold(probs) {
        var i, j :| 0 <= i < j < |probs| && probs[i] >= Threshold && probs[j] >= Threshold;
        if i == 0 {
          assert rest[j - 1] >= Threshold;
        } else {
          assert rest[i - 1] >= Threshold && rest[j - 1] >= Threshold;
        }
      }
    }
  }

  /**
   * The loaded artifacts, as functions from an input row to a class-1
   * probability: the scaler, and the three classifiers. The logistic model is
   * fed the scaled row, the tree and the forest the raw row.
   */
  datatype Models = Models(
    scaler: seq<int> -> seq<real>,
    logistic: seq<real> -> real,
    tree: seq<int> -> real,
    forest: seq<int> -> real)

  /** Everything the ensemble decides from the three probabilities. */
  datatype Verdict = Verdict(
    lrPred: int,
    dtPred: int,
    rfPred: int,
    votes: int,
    finalRisk: Risk,
    average: real)

  /** Thresholds, majority vote and mean, as the prediction endpoint computes them. */
  function Decide(lr: real, dt: real, rf: real): (v: Verdict)
    ensures v.lrPred in {0, 1} && (v.lrPred == 1 <==> lr >= Threshold)
    ensures v.dtPred in {0, 1} && (v.dtPred == 1 <==> dt >= Threshold)
    ensures v.rfPred in {0, 1} && (v.rfPred == 1 <==> rf >= Threshold)
    ensures v.votes == HighCount([lr, dt, rf]) && 0 <= v.votes <= 3
    ensures v.finalRisk == High <==> v.votes >= 2
    ensures v.finalRisk == High <==> TwoReachThreshold([lr, dt, rf])
    ensures v.finalRisk == High <==> AtLeastTwoHigh(RiskOf(v.lrPred), RiskOf(v.dtPred), RiskOf(v.rfPred))
    ensures 3.0 * v.average == lr + dt + rf
    ensures Min3(lr, dt, rf) <= v.average <= Max3(lr, dt, rf)
  {
    var lrPred := Prediction(lr);
    var dtPred := Prediction(dt);
    var rfPred := Prediction(rf);
    var votes := lrPred + dtPred + rfPred;
    assert HighCount([rf]) == rfPred by { assert [rf][1..] == []; }
    assert HighCount([dt, rf]) == dtPred + rfPred by { assert [dt, rf][1..] == [rf]; }
    assert HighCount([lr, dt, rf]) == votes by { assert [lr, dt, rf][1..] == [dt, rf]; }
    TwoVotesIffTwoReach([lr, dt, rf]);
    Verdict(lrPred, dtPred, rfPred, votes, FinalRisk(votes), Average(lr, dt, rf))
  }

  /** Three probabilities in [0,1] have a mean in [0,1]. */
  lemma AverageIsProbability(lr: real, dt: real, rf: real)
    requires IsProbability(lr) && IsProbability(dt) && IsProbability(rf)
    ensures IsProbability(Decide(lr, dt, rf).average)
  {
  }

  /** The threshold is inclusive: exactly 0.25 is a High vote, anything below is not. */
  lemma ThresholdIsInclusive(p: real)
    ensures Decide(Threshold, p, p).lrPred == 1
    ensures p < Threshold ==> Decide(p, p, p).votes == 0 && Decide(p, p, p).finalRisk == Low
  {
  }

  /** Probabilities 0.1, 0.3, 0.4: two votes, High, mean 0.8 / 3. */
  lemma TwoOfThreeScenario()
    ensures Decide(0.1, 0.3, 0.4) == Verdict(0, 1, 1, 2, High, 0.8 / 3.0)
  {
  }

  /** Probabilities 0.2, 0.2, 0.2: no votes, Low. */
  lemma NoVoteScenario()
    ensures Decide(0.2, 0.2, 0.2).votes == 0 && Decide(0.2, 0.2, 0.2).finalRisk == Low
  {
  }
}
