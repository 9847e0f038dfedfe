/**
 * The interactive form script, from the moment the form has been submitted:
 * it maps the widget values to the feature vector, runs the three models,
 * thresholds and votes with the same rule as the endpoint, recomputes the
 * per-model display labels from the probabilities, and builds its own
 * explanation list by successive appends.
 */
module FormApp {
  import opened Employee
  import opened Ensemble
  import opened Explanation

  /** The widget values once the form is submitted; `overtime` is the radio choice. */
  datatype FormInput = FormInput(
    age: int,
    monthlyIncome: int,
    yearsAtCompany: int,
    jobSatisfaction: int,
    workLifeBalance: int,
    overtime: string)

  /** What the widgets can produce: the slider, number-input and select-box ranges. */
  predicate WithinWidgetBounds(f: FormInput)
  {
    && 18 <= f.age <= 60
    && 1000 <= f.monthlyIncome <= 20000
    && 0 <= f.yearsAtCompany <= 40
    && 1 <= f.jobSatisfaction <= 4
    && 1 <= f.workLifeBalance <= 4
    && (f.overtime == "Yes" || f.overtime == "No")
  }

  /** The 0/1 encoding of the overtime radio choice. */
  function OvertimeValue(choice: string): int
  {
    if choice == "Yes" then 1 else 0
  }

  /** The six integers the script hands to the models, as an employee record. */
  function FormRecord(f: FormInput): (e: EmployeeData)
    ensures e.overTime in {0, 1}
    ensures e.overTime == 1 <==> f.overtime == "Yes"
  {
    EmployeeData(f.age, f.monthlyIncome, f.jobSatisfaction, f.workLifeBalance,
                 f.yearsAtCompany, OvertimeValue(f.overtime))
  }

  /** Every record the widgets can produce lies in the documented domain. */
  lemma WidgetRecordsInDomain(f: FormInput)
    requires WithinWidgetBounds(f)
    ensures var e := FormRecord(f);
      && 1 <= e.jobSatisfaction <= 4 && 1 <= e.workLifeBalance <= 4
      && e.yearsAtCompany >= 0 && e.monthlyIncome >= 1000 && e.age >= 18
      && (e.overTime == 1 <==> f.overtime == "Yes") && (e.overTime == 0 <==> f.overtime == "No")
  {
  }

  /** The script's variables after a submitted run. */
  datatype ScriptState = ScriptState(
    inputData: seq<int>,
    lrProb: real,
    dtProb: real,
    rfProb: real,
    lrPred: int,
    dtPred: int,
    rfPred: int,
    votes: int,
    finalRisk: Risk,
    avgProb: real,
    lrRisk: Risk,
    dtRisk: Risk,
    rfRisk: Risk,
    reasons: seq<string>)

  /** The script's explanation block: one append per rule that fires, then the sentinel. */
  method ExplanationBlock(form: FormInput, overtimeVal: int) returns (reasons: seq<string>)
    ensures var e := EmployeeData(form.age, form.monthlyIncome, form.jobSatisfaction,
                                  form.workLifeBalance, form.yearsAtCompany, overtimeVal);
      && reasons == Explain(e)
      && 1 <= |reasons| <= 5
      && (reasons == [NoRiskFactors] <==> NoRuleFires(e))
      && (NoRiskFactors in reasons <==> NoRuleFires(e))
  {
    ghost var e := EmployeeData(form.age, form.monthlyIncome, form.jobSatisfaction,
                                form.workLifeBalance, form.yearsAtCompany, overtimeVal);
    // `applied` is what the rules have contributed so far, in rule order.
    ghost var applied: seq<string> := [];
    reasons := [];
    if form.yearsAtCompany <= 2 {
      reasons := reasons + [EarlyCareer];
    }
    applied := applied + (if form.yearsAtCompany <= 2 then [EarlyCareer] else []);
    assert reasons == applied;
    if overtimeVal == 1 {
      reasons := reasons + [WorkingOvertime];
    }
    applied := applied + (if overtimeVal == 1 then [WorkingOvertime] else []);
    assert reasons == applied;
    if form.jobSatisfaction <= 2 {
      reasons := reasons + [LowJobSatisfaction];
    }
    applied := applied + (if form.jobSatisfaction <= 2 then [LowJobSatisfaction] else []);
    assert reasons == applied;
    if form.workLifeBalance <= 2 {
      reasons := reasons + [PoorWorkLifeBalance];
    }
    applied := applied + (if form.workLifeBalance <= 2 then [PoorWorkLifeBalance] else []);
    assert reasons == applied;
    if form.monthlyIncome < 4000 {
      reasons := reasons + [LowMonthlyIncome];
    }
    applied := applied + (if form.monthlyIncome < 4000 then [LowMonthlyIncome] else []);
    assert reasons == applied;
    assert applied == AppendInRuleOrder(e);
    ghost var appended := reasons;
    if reasons == [] {
      reasons := reasons + [NoRiskFactors];
    }
    AppendsThenSentinel(e, appended, reasons);
  }

  /** One submitted run of the script, with the loaded artifacts given as `models`. */
  method Submit(form: FormInput, models: Models) returns (s: ScriptState)
    ensures s.inputData == FeatureVector(FormRecord(form))
    ensures s.lrProb == models.logistic(models.scaler(s.inputData))
    ensures s.dtProb == models.tree(s.inputData)
    ensures s.rfProb == models.forest(s.inputData)
    ensures s.lrPred in {0, 1} && (s.lrPred == 1 <==> s.lrProb >= Threshold)
    ensures s.dtPred in {0, 1} && (s.dtPred == 1 <==> s.dtProb >= Threshold)
    ensures s.rfPred in {0, 1} && (s.rfPred == 1 <==> s.rfProb >= Threshold)
    ensures s.votes == HighCount([s.lrProb, s.dtProb, s.rfProb]) && 0 <= s.votes <= 3
    ensures s.finalRisk == High <==> s.votes >= 2
    ensures 3.0 * s.avgProb == s.lrProb + s.dtProb + s.rfProb
    ensures s.lrRisk == RiskOf(s.lrPred) && s.dtRisk == RiskOf(s.dtPred) && s.rfRisk == RiskOf(s.rfPred)
    ensures s.reasons == Explain(FormRecord(form))
    ensures s.reasons == [NoRiskFactors] <==> NoRuleFires(FormRecord(form))
  {
    var overtimeVal := OvertimeValue(form.overtime);
    var inputData := [form.age, form.monthlyIncome, form.jobSatisfaction,
                      form.workLifeBalance, form.yearsAtCompany, overtimeVal];

    var inputScaled := models.scaler(inputData);
    var lrProb := models.logistic(inputScaled);
    var lrPred := Prediction(lrProb);

    var dtProb := models.tree(inputData);
    var dtPred := Prediction(dtProb);

    var rfProb := models.forest(inputData);
    var rfPred := Prediction(rfProb);

    var votes := lrPred + dtPred + rfPred;
    var finalRisk := FinalRisk(votes);
    var avgProb := Average(lrProb, dtProb, rfProb);

    // The display labels are recomputed from the probabilities, not from the predictions.
    var lrRisk := if lrProb >= Threshold then High else Low;
    var dtRisk := if dtProb >= Threshold then High else Low;
    var rfRisk := if rfProb >= Threshold then High else Low;

    var reasons := ExplanationBlock(form, overtimeVal);

    ghost var verdict := Decide(lrProb, dtProb, rfProb);
    assert verdict.votes == votes;
    s := ScriptState(inputData, lrProb, dtProb, rfProb, lrPred, dtPred, rfPred, votes,
                     finalRisk, avgProb, lrRisk, dtRisk, rfRisk, reasons);
  }
}
