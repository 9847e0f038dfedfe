/**
 * The HTTP prediction endpoint: the explanation helper, which builds its
 * list by successive appends, and the predict handler, which runs the three
 * models on the feature vector, takes the majority vote and assembles the
 * response fields.
 */
module Backend {
  import opened Employee
  import opened Ensemble
  import opened Explanation

  /** One entry of `individual_predictions`. */
  datatype ModelReport = ModelReport(risk: Risk, probability: real)

  /** The fields of the predict response. */
  datatype PredictResponse = PredictResponse(
    logisticRegression: ModelReport,
    decisionTree: ModelReport,
    randomForest: ModelReport,
    ensembleRisk: Risk,
    averageProbability: real,
    decisionLogic: string,
    topRiskFactors: seq<string>)

  const DecisionLogic: string := "Majority voting among three models"

  /** The rule-based explanation, one append per rule that fires. */
  method GenerateExplanation(data: EmployeeData) returns (reasons: seq<string>)
    ensures reasons == Explain(data)
    ensures 1 <= |reasons| <= 5
    ensures reasons == [NoRiskFactors] <==> NoRuleFires(data)
    ensures NoRiskFactors in reasons <==> NoRuleFires(data)
  {
    // `applied` is what the rules have contributed so far, in rule order.
    ghost var applied: seq<string> := [];
    reasons := [];
    if data.yearsAtCompany <= 2 {
      reasons := reasons + [EarlyCareer];
    }
    applied := applied + (if data.yearsAtCompany <= 2 then [EarlyCareer] else []);
    assert reasons == applied;
    if data.overTime == 1 {
      reasons := reasons + [WorkingOvertime];
    }
    applied := applied + (if data.overTime == 1 then [WorkingOvertime] else []);
    assert reasons == applied;
    if data.jobSatisfaction <= 2 {
      reasons := reasons + [LowJobSatisfaction];
    }
    applied := applied + (if data.jobSatisfaction <= 2 then [LowJobSatisfaction] else []);
    assert reasons == applied;
    if data.workLifeBalance <= 2 {
      reasons := reasons + [PoorWorkLifeBalance];
    }
    applied := applied + (if data.workLifeBalance <= 2 then [PoorWorkLifeBalance] else []);
    assert reasons == applied;
    if data.monthlyIncome < 4000 {
      reasons := reasons + [LowMonthlyIncome];
    }
    applied := applied + (if data.monthlyIncome < 4000 then [LowMonthlyIncome] else []);
    assert reasons == applied;
    assert applied == AppendInRuleOrder(data);
    ghost var appended := reasons;
    if reasons == [] {
      reasons := reasons + [NoRiskFactors];
    }
    AppendsThenSentinel(data, appended, reasons);
  }

  /** The predict handler, with the classifiers and the scaler given as `models`. */
  method Predict(employee: EmployeeData, models: Models) returns (response: PredictResponse)
    ensures response.logisticRegression.probability == models.logistic(models.scaler(FeatureVector(employee)))
    ensures response.decisionTree.probability == models.tree(FeatureVector(employee))
    ensures response.randomForest.probability == models.forest(FeatureVector(employee))
    ensures response.logisticRegression.risk == High <==> response.logisticRegression.probability >= Threshold
    ensures response.decisionTree.risk == High <==> response.decisionTree.probability >= Threshold
    ensures response.randomForest.risk == High <==> response.randomForest.probability >= Threshold
    ensures response.ensembleRisk == High <==>
      HighCount([response.logisticRegression.probability, response.decisionTree.probability,
                 response.randomForest.probability]) >= 2
    ensures response.ensembleRisk == High <==>
      AtLeastTwoHigh(response.logisticRegression.risk, response.decisionTree.risk, response.randomForest.risk)
    ensures 3.0 * response.averageProbability ==
      response.logisticRegression.probability + response.decisionTree.probability
      + response.randomForest.probability
    ensures response.decisionLogic == DecisionLogic
    ensures response.topRiskFactors == Explain(employee)
  {
    var inputData := FeatureVector(employee);
    var inputScaled := models.scaler(inputData);
    var lrProb := models.logistic(inputScaled);
    var dtProb := models.tree(inputData);
    var rfProb := models.forest(inputData);
    var verdict := Decide(lrProb, dtProb, rfProb);
    var reasons := GenerateExplanation(employee);
    response := PredictResponse(
      ModelReport(RiskOf(verdict.lrPred), lrProb),
      ModelReport(RiskOf(verdict.dtPred), dtProb),
      ModelReport(RiskOf(verdict.rfPred), rfProb),
      verdict.finalRisk,
      verdict.average,
      DecisionLogic,
      reasons);
  }
}
