/**
 * The rule-based explanation: five threshold rules, evaluated in a fixed
 * order, each contributing one fixed text when it fires; a single sentinel
 * text when none fires. This module gives the reference definition as a rule
 * table filtered by the rules that fire, and proves its properties.
 */
module Explanation {
  import opened Employee

  const EarlyCareer: string := "Early career employee"
  const WorkingOvertime: string := "Working overtime"
  const LowJobSatisfaction: string := "Low job satisfaction"
  const PoorWorkLifeBalance: string := "Poor work-life balance"
  const LowMonthlyIncome: string := "Low monthly income"
  const NoRiskFactors: string := "No strong attrition risk factors detected"

  /** The five rule texts, in evaluation order. */
  const RuleTexts: seq<string> :=
    [EarlyCareer, WorkingOvertime, LowJobSatisfaction, PoorWorkLifeBalance, LowMonthlyIncome]

  /** Which of the five rules fire, in the order of RuleTexts. */
  function RulesFired(e: EmployeeData): (fired: seq<bool>)
    ensures |fired| == |RuleTexts|
  {
    [ e.yearsAtCompany <= 2,
      e.overTime == 1,
      e.jobSatisfaction <= 2,
      e.workLifeBalance <= 2,
      e.monthlyIncome < 4000 ]
  }

  /** None of the five conditions holds. */
  predicate NoRuleFires(e: EmployeeData)
  {
    e.yearsAtCompany > 2 && e.overTime != 1 && e.jobSatisfaction > 2
    && e.workLifeBalance > 2 && e.monthlyIncome >= 4000
  }

  predicate Distinct<T(==)>(s: seq<T>)
  {
    forall i, j :: 0 <= i < j < |s| ==> s[i] != s[j]
  }

  /** `r` can be obtained from `s` by deleting elements, keeping the order of the rest. */
  predicate IsSubsequence<T(==)>(r: seq<T>, s: seq<T>)
    decreases |s|
  {
    |r| <= |s| &&
    (r == []
     || (r[|r| - 1] == s[|s| - 1] && IsSubsequence(r[..|r| - 1], s[..|s| - 1]))
     || IsSubsequence(r, s[..|s| - 1]))
  }

  /** The items whose flag is set, in their original order. */
  function Select<T>(flags: seq<bool>, items: seq<T>): (r: seq<T>)
    requires |flags| == |items|
    ensures |r| <= |items|
  {
    if items == [] then []
    else
      var n := |items| - 1;
      Select(flags[..n], items[..n]) + (if flags[n] then [items[n]] else [])
  }

  /** The explanation list for a record. */
  function Explain(e: EmployeeData): seq<string>
  {
    var fired := Select(RulesFired(e), RuleTexts);
    if fired == [] then [NoRiskFactors] else fired
  }

  lemma {:induction false} SelectExcludes<T>(flags: seq<bool>, items: seq<T>, x: T)
    requires |flags| == |items|
    requires x !in items
    ensures x !in Select(flags, items)
  {
    if items != [] {
      var n := |items| - 1;
      assert x !in items[..n] by {
        forall j | 0 <= j < n ensures items[..n][j] != x {
          assert items[..n][j] == items[j];
        }
      }
      SelectExcludes(flags[..n], items[..n], x);
    }
  }

  lemma {:induction false} SelectContains<T>(flags: seq<bool>, items: seq<T>, k: nat)
    requires |flags| == |items| && k < |items|
    requires Distinct(items)
    ensures items[k] in Select(flags, items) <==> flags[k]
  {
    var n := |items| - 1;
    if k == n {
      assert items[n] !in items[..n] by {
        forall j | 0 <= j < n ensures items[..n][j] != items[n] {
          assert items[..n][j] == items[j];
        }
      }
      SelectExcludes(flags[..n], items[..n], items[n]);
    } else {
      assert items[n] != items[k];
      assert Distinct(items[..n]) by {
        forall i, j | 0 <= i < j < n ensures items[..n][i] != items[..n][j] {
          assert items[..n][i] == items[i] && items[..n][j] == items[j];
        }
      }
      SelectContains(flags[..n], items[..n], k);
      assert items[..n][k] == items[k] && flags[..n][k] == flags[k];
    }
  }

  lemma {:induction false} SelectEmptyIff<T>(flags: seq<bool>, items: seq<T>)
    requires |flags| == |items|
    ensures Select(flags, items) == [] <==> forall i :: 0 <= i < |flags| ==> !flags[i]
  {
    if items != [] {
      var n := |items| - 1;
      SelectEmptyIff(flags[..n], items[..n]);
      if !flags[n] && Select(flags[..n], items[..n]) == [] {
        forall i | 0 <= i < |flags| ensures !flags[i] {
          if i < n {
            assert flags[..n][i] == flags[i];
          }
        }
      }
      if forall i :: 0 <= i < |flags| ==> !flags[i] {
        assert forall i :: 0 <= i < n ==> flags[..n][i] == flags[i];
      }
    }
  }

  lemma {:induction false} SelectIsSubsequence<T>(flags: seq<bool>, items: seq<T>)
    requires |flags| == |items|
    ensures IsSubsequence(Select(flags, items), items)
  {
    if items != [] {
      var n := |items| - 1;
      var prefix := Select(flags[..n], items[..n]);
      SelectIsSubsequence(flags[..n], items[..n]);
      if flags[n] {
        var r := prefix + [items[n]];
        assert r[|r| - 1] == items[n] && r[..|r| - 1] == prefix;
      } else {
        assert Select(flags, items) == prefix;
      }
    }
  }

  lemma RuleTextsDistinct()
    ensures Distinct(RuleTexts)
    ensures NoRiskFactors !in RuleTexts
  {
    assert EarlyCareer[0] == 'E' && WorkingOvertime[0] == 'W' && LowJobSatisfaction[0] == 'L'
      && PoorWorkLifeBalance[0] == 'P' && LowMonthlyIncome[0] == 'L' && NoRiskFactors[0] == 'N';
    assert LowJobSatisfaction[4] == 'j' && LowMonthlyIncome[4] == 'm';
  }

  /** The five conditional appends, applied in rule order to an empty list. */
  function AppendInRuleOrder(e: EmployeeData): seq<string>
  {
    var r := [];
    var r := r + (if e.yearsAtCompany <= 2 then [EarlyCareer] else []);
    var r := r + (if e.overTime == 1 then [WorkingOvertime] else []);
    var r := r + (if e.jobSatisfaction <= 2 then [LowJobSatisfaction] else []);
    var r := r + (if e.workLifeBalance <= 2 then [PoorWorkLifeBalance] else []);
    r + (if e.monthlyIncome < 4000 then [LowMonthlyIncome] else [])
  }

  /** Filtering the rule table is the same as appending rule by rule. */
  lemma SelectIsAppendInRuleOrder(e: EmployeeData)
    ensures Select(RulesFired(e), RuleTexts) == AppendInRuleOrder(e)
  {
    var f := RulesFired(e);
    var t := RuleTexts;
    var r0 := Select(f[..1], t[..1]);
    assert r0 == [] + (if f[0] then [t[0]] else []) by {
      assert f[..1][..0] == [] && t[..1][..0] == [];
    }
    var r1 := Select(f[..2], t[..2]);
    assert r1 == r0 + (if f[1] then [t[1]] else []) by {
      assert f[..2][..1] == f[..1] && t[..2][..1] == t[..1];
    }
    var r2 := Select(f[..3], t[..3]);
    assert r2 == r1 + (if f[2] then [t[2]] else []) by {
      assert f[..3][..2] == f[..2] && t[..3][..2] == t[..2];
    }
    var r3 := Select(f[..4], t[..4]);
    assert r3 == r2 + (if f[3] then [t[3]] else []) by {
      assert f[..4][..3] == f[..3] && t[..4][..3] == t[..3];
    }
    assert Select(f, t) == r3 + (if f[4] then [t[4]] else []) by {
      assert f[..4] == f[..|f| - 1] && t[..4] == t[..|t| - 1];
    }
  }

  /** The list is never empty and holds at most one text per rule. */
  lemma ExplainLength(e: EmployeeData)
    ensures 1 <= |Explain(e)| <= 5
  {
  }

  /** The sentinel is the whole list exactly when no rule fires, and absent otherwise. */
  lemma SentinelIffNoRuleFires(e: EmployeeData)
    ensures Explain(e) == [NoRiskFactors] <==> NoRuleFires(e)
    ensures NoRiskFactors in Explain(e) <==> NoRuleFires(e)
  {
    var flags := RulesFired(e);
    SelectEmptyIff(flags, RuleTexts);
    RuleTextsDistinct();
    SelectExcludes(flags, RuleTexts, NoRiskFactors);
    if forall i :: 0 <= i < |flags| ==> !flags[i] {
      assert !flags[0] && !flags[1] && !flags[2] && !flags[3] && !flags[4];
    }
  }

  /** The appends in rule order, completed by the sentinel when nothing was appended,
      give the explanation list. */
  lemma AppendsThenSentinel(e: EmployeeData, appended: seq<string>, result: seq<string>)
    requires appended == AppendInRuleOrder(e)
    requires result == if appended == [] then [NoRiskFactors] else appended
    ensures result == Explain(e)
    ensures 1 <= |result| <= 5
    ensures result == [NoRiskFactors] <==> NoRuleFires(e)
    ensures NoRiskFactors in result <==> NoRuleFires(e)
  {
    SelectIsAppendInRuleOrder(e);
    ExplainLength(e);
    SentinelIffNoRuleFires(e);
  }

  /** Each rule's text is in the list exactly when its condition holds. */
  lemma ReasonIffCondition(e: EmployeeData)
    ensures EarlyCareer in Explain(e) <==> e.yearsAtCompany <= 2
    ensures WorkingOvertime in Explain(e) <==> e.overTime == 1
    ensures LowJobSatisfaction in Explain(e) <==> e.jobSatisfaction <= 2
    ensures PoorWorkLifeBalance in Explain(e) <==> e.workLifeBalance <= 2
    ensures LowMonthlyIncome in Explain(e) <==> e.monthlyIncome < 4000
  {
    var flags := RulesFired(e);
    RuleTextsDistinct();
    SentinelIffNoRuleFires(e);
    SelectContains(flags, RuleTexts, 0);
    SelectContains(flags, RuleTexts, 1);
    SelectContains(flags, RuleTexts, 2);
    SelectContains(flags, RuleTexts, 3);
    SelectContains(flags, RuleTexts, 4);
  }

  /** When some rule fires, the texts appear in rule order: early career, overtime,
      job satisfaction, work-life balance, income. */
  lemma ExplainFollowsRuleOrder(e: EmployeeData)
    requires !NoRuleFires(e)
    ensures IsSubsequence(Explain(e), RuleTexts)
  {
    SentinelIffNoRuleFires(e);
    SelectIsSubsequence(RulesFired(e), RuleTexts);
  }

  /** Every rule fires for this record: all five texts, in order. */
  lemma AllRulesScenario()
    ensures Explain(EmployeeData(45, 3000, 1, 1, 1, 1)) == RuleTexts
  {
    SelectIsAppendInRuleOrder(EmployeeData(45, 3000, 1, 1, 1, 1));
  }

  /** No rule fires for this record: just the sentinel. */
  lemma NoRuleScenario()
    ensures Explain(EmployeeData(40, 9000, 4, 4, 10, 0)) == [NoRiskFactors]
  {
    SelectIsAppendInRuleOrder(EmployeeData(40, 9000, 4, 4, 10, 0));
  }
}
