/**
 * The endpoint and the form script duplicate the decision and explanation
 * logic. Run on the same six values and the same artifacts, they agree.
 */
module Consistency {
  import opened Ensemble
  import opened Backend
  import opened FormApp

  /** Both front ends on the same submitted form. */
  method CompareFrontEnds(form: FormInput, models: Models) returns (response: PredictResponse, state: ScriptState)
    ensures response.topRiskFactors == state.reasons
    ensures response.ensembleRisk == state.finalRisk
    ensures response.averageProbability == state.avgProb
    ensures response.logisticRegression == ModelReport(state.lrRisk, state.lrProb)
    ensures response.decisionTree == ModelReport(state.dtRisk, state.dtProb)
    ensures response.randomForest == ModelReport(state.rfRisk, state.rfProb)
  {
    response := Predict(FormRecord(form), models);
    state := Submit(form, models);
  }
}
