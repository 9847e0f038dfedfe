/**
 * The employee record of the prediction service and the fixed-order feature
 * vector that every classifier and the scaler were trained on.
 */
module Employee {

  /** The six integer fields of a prediction request (all plain `int`). */
  datatype EmployeeData = EmployeeData(
    age: int,
    monthlyIncome: int,
    jobSatisfaction: int,
    workLifeBalance: int,
    yearsAtCompany: int,
    overTime: int)  // 1 = Yes, 0 = No; other values are accepted as given

  /** The slot of each field in the feature vector. */
  const AgeIndex: nat := 0
  const MonthlyIncomeIndex: nat := 1
  const JobSatisfactionIndex: nat := 2
  const WorkLifeBalanceIndex: nat := 3
  const YearsAtCompanyIndex: nat := 4
  const OverTimeIndex: nat := 5
  const FeatureCount: nat := 6

  /** The one-row input handed to the scaler and the classifiers. */
  function FeatureVector(e: EmployeeData): (v: seq<int>)
    ensures |v| == FeatureCount
    ensures v[AgeIndex] == e.age
    ensures v[MonthlyIncomeIndex] == e.monthlyIncome
    ensures v[JobSatisfactionIndex] == e.jobSatisfaction
    ensures v[WorkLifeBalanceIndex] == e.workLifeBalance
    ensures v[YearsAtCompanyIndex] == e.yearsAtCompany
    ensures v[OverTimeIndex] == e.overTime
  {
    [e.age, e.monthlyIncome, e.jobSatisfaction, e.workLifeBalance, e.yearsAtCompany, e.overTime]
  }

  /** Reads a record back out of a feature vector, slot by slot. */
  function RecordOf(v: seq<int>): EmployeeData
    requires |v| == FeatureCount
  {
    EmployeeData(v[AgeIndex], v[MonthlyIncomeIndex], v[JobSatisfactionIndex],
                 v[WorkLifeBalanceIndex], v[YearsAtCompanyIndex], v[OverTimeIndex])
  }

  /** No two fields share a slot: the record survives the trip through the vector. */
  lemma FeatureVectorRoundTrip(e: EmployeeData)
    ensures RecordOf(FeatureVector(e)) == e
  {
  }

  /** Every slot belongs to some field: every six-entry vector is some record's vector. */
  lemma RecordOfRoundTrip(v: seq<int>)
    requires |v| == FeatureCount
    ensures FeatureVector(RecordOf(v)) == v
  {
    var w := FeatureVector(RecordOf(v));
    assert forall i :: 0 <= i < FeatureCount ==> w[i] == v[i];
  }
}
