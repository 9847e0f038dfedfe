# HR attrition ensemble — a Dafny model

The system predicts whether an employee is at risk of leaving. It does this through two
front ends: an HTTP endpoint (`FastAPI_Backend/app.py`) and an interactive form script
(`streamlit_app.py`). Both take the same six integers:

- age
- monthly income
- job satisfaction
- work-life balance
- years at company
- overtime (1 = yes, 0 = no)

From those integers, both front ends:

- build a one-row feature vector in a fixed order;
- ask three trained classifiers for a class-1 probability. Logistic regression is fed the scaled row; the decision tree and the random forest are fed the raw row;
- turn each probability into a 0/1 vote with the inclusive threshold 0.25;
- call the ensemble `High` when at least two of the three vote 1;
- report the mean of the three probabilities;
- attach a rule-based explanation. Five threshold rules are checked in a fixed order, and each adds one fixed text when it fires. When none fires, a single "no strong risk factors" text is used instead.

The model has six modules:

- `Employee` (`employee.dfy`): the request record and its feature vector.
- `Ensemble` (`ensemble.dfy`): thresholds, vote count, majority and mean. The pure decision logic is a function `Decide`. It comes with a reference count `HighCount` and a reference notion of a majority, "two distinct models reach the threshold".
- `Explanation` (`explanation.dfy`): the reference definition of the explanation list. It is the rule table filtered by the rules that fire (`Select`), with the sentinel used when nothing is selected. Its properties are proved here: which texts appear, their order, the length, and when the sentinel appears.
- `Backend` (`backend.dfy`): the endpoint's `generate_explanation` is an imperative method that appends text by text. It is proved equal to the reference list. The `predict` handler is a method that fills in the response fields.
- `FormApp` (`form_app.dfy`): the form script after a submit, as one method that assigns the script's variables step by step. It has its own explanation block, because the script duplicates the rules rather than calling the endpoint's helper.
- `Consistency` (`consistency.dfy`): both front ends run on the same submitted form and the same artifacts agree on every reported value.

The scaler and the three classifiers are loaded from files and are opaque numeric code. They are modelled as parameters: a `Models` value of four total functions, from a row to a scaled row and from a row to a class-1 probability.

## Model

| member | source | states |
|---|---|---|
| Employee.FeatureVector | FastAPI_Backend/app.py:65-72 | the row has six slots, and each field lands in its fixed slot: age, income, job satisfaction, work-life balance, years at company, overtime |
| Employee.FeatureVectorRoundTrip | FastAPI_Backend/app.py:65-72 | reading the six slots back gives the original record, so no two fields share a slot |
| Employee.RecordOfRoundTrip | FastAPI_Backend/app.py:65-72 | every six-entry row is the feature vector of the record read from it, so every slot belongs to a field |
| Ensemble.Average | FastAPI_Backend/app.py:93 | three times the mean is the sum of the three probabilities |
| Ensemble.HighCount | FastAPI_Backend/app.py:77-90 | the number of probabilities at or above the threshold never exceeds the number of models |
| Ensemble.OneVoteIffSomeReach | FastAPI_Backend/app.py:77-90 | at least one vote exactly when some model's probability reaches 0.25 |
| Ensemble.TwoVotesIffTwoReach | FastAPI_Backend/app.py:90-92 | two or more votes exactly when two distinct models reach 0.25, for any number of models |
| Ensemble.Decide | FastAPI_Backend/app.py:77-93 | each vote is 0 or 1, and it is 1 exactly when its probability is at least 0.25; the votes are the reference count; the ensemble is High exactly when there are two or more votes, exactly when two distinct models reach the threshold, and exactly when two of the three per-model labels are High; the mean times three is the sum, and it lies between the smallest and the largest probability |
| Ensemble.AverageIsProbability | FastAPI_Backend/app.py:93 | three probabilities in [0,1] have a mean in [0,1] |
| Ensemble.ThresholdIsInclusive | FastAPI_Backend/app.py:77 | a probability of exactly 0.25 votes 1; three probabilities below 0.25 give no votes and Low |
| Ensemble.TwoOfThreeScenario | FastAPI_Backend/app.py:77-93 | probabilities 0.1, 0.3, 0.4 give votes 0, 1, 1, two votes, High, and mean 0.8/3 |
| Ensemble.NoVoteScenario | FastAPI_Backend/app.py:77-92 | probabilities 0.2, 0.2, 0.2 give no votes and Low |
| Explanation.RulesFired | FastAPI_Backend/app.py:37-50 | one flag per rule, in rule order |
| Explanation.Select | FastAPI_Backend/app.py:35-50 | the filtered list is never longer than the rule table |
| Explanation.SelectContains | FastAPI_Backend/app.py:37-50 | when the texts are distinct, a text is selected exactly when its flag is set |
| Explanation.SelectEmptyIff | FastAPI_Backend/app.py:52 | nothing is selected exactly when no flag is set |
| Explanation.SelectIsSubsequence | FastAPI_Backend/app.py:35-50 | the selected texts keep the order of the table |
| Explanation.SelectIsAppendInRuleOrder | FastAPI_Backend/app.py:35-50 | filtering the rule table gives the same list as the five conditional appends in rule order |
| Explanation.ExplainLength | FastAPI_Backend/app.py:34-55 | the explanation has between one and five entries |
| Explanation.SentinelIffNoRuleFires | FastAPI_Backend/app.py:52-53 | the list is exactly the sentinel when no rule fires; the sentinel appears in the list only when no rule fires |
| Explanation.AppendsThenSentinel | FastAPI_Backend/app.py:35-55 | the appends in rule order, followed by the sentinel when nothing was appended, give the reference list, with its length and sentinel properties |
| Explanation.ReasonIffCondition | FastAPI_Backend/app.py:37-50 | each of the five texts is present exactly when its condition holds: years at company ≤ 2, overtime = 1, job satisfaction ≤ 2, work-life balance ≤ 2, income < 4000 |
| Explanation.ExplainFollowsRuleOrder | FastAPI_Backend/app.py:37-50 | when some rule fires, the list is a subsequence of the rule table in its order |
| Explanation.AllRulesScenario | FastAPI_Backend/app.py:34-55 | a record on which every rule fires gets all five texts, in rule order |
| Explanation.NoRuleScenario | FastAPI_Backend/app.py:52-53 | a record on which no rule fires gets only the sentinel |
| Backend.GenerateExplanation | FastAPI_Backend/app.py:34-55 | the list built by appends is the reference explanation; it has one to five entries; it is just the sentinel, and contains the sentinel, exactly when no rule fires |
| Backend.Predict | FastAPI_Backend/app.py:62-121 | the logistic probability is read on the scaled row, and the tree and forest probabilities on the raw row; each label is High exactly when its probability reaches 0.25; the ensemble is High exactly on two or more votes, and exactly when two labels are High; three times the mean is the sum; the decision-logic text is fixed; the risk factors are the reference explanation |
| FormApp.FormRecord | streamlit_app.py:52-53 | the overtime value is 0 or 1, and it is 1 exactly when the radio choice is "Yes" |
| FormApp.WidgetRecordsInDomain | streamlit_app.py:32-53 | every value the widgets can produce gives a record in the documented domain: satisfaction and balance in 1..4, years ≥ 0, income ≥ 1000, age ≥ 18, overtime 1 for "Yes" and 0 for "No" |
| FormApp.ExplanationBlock | streamlit_app.py:116-135 | the script's own appends give the reference explanation of the submitted values; it has one to five entries; the sentinel is the whole list, and is present, exactly when no rule fires |
| FormApp.Submit | streamlit_app.py:60-135 | the row is the feature vector of the form's record; the probabilities come from the models on the scaled and the raw row; each prediction is 0/1 and is 1 exactly when its probability reaches 0.25; the votes are the reference count and High means two or more; three times the mean is the sum; each display label, recomputed from the probability, equals the label of its prediction; the reasons are the reference explanation |
| Consistency.CompareFrontEnds | FastAPI_Backend/app.py:62-121 | on the same submitted values and the same models, the endpoint and the form script report the same three model labels and probabilities, the same ensemble risk, the same mean and the same explanation list |

## Left out

- Loading the pickled scaler and classifiers (`joblib.load`) and their numeric internals. They are the parameters `Models.scaler`, `Models.logistic`, `Models.tree` and `Models.forest`. Each classifier stands for `predict_proba(row)[0][1]`, the class-1 probability for a one-row input.
- Backend.Predict: reports the exact probabilities and the exact mean. It does not model `round(float(·), 4)`, because floating point and its decimal rounding are outside the model. The votes are taken on the unrounded probabilities, as in the source.
- FormApp.Submit: the mean is exact, not rounded to four places. The rounding in the display text is left out too.
- The HTTP and validation layer: the FastAPI routes, the pydantic parsing of the JSON body, the `/` health message, and the nested JSON dictionary shape. `PredictResponse` holds the same fields as a flat record.
- The form widgets and all output: `st.slider`, `st.number_input`, `st.selectbox`, `st.radio`, the page setup and every `st.write` or `st.subheader`. That includes the loop that prints each reason (`streamlit_app.py:138-139`). The widget ranges are stated as the predicate `FormApp.WithinWidgetBounds`, and are not a precondition of `Submit`, because the logic does not depend on them.
- In `streamlit_app.py`, lines 100-139 are not indented under `if submit:`. So on a run without a submit, the script reaches them with the probabilities unset. The model covers only the submitted run, where those lines follow the prediction block.
- The `overTime` field of the endpoint's record accepts any integer, as the source does. Only the value 1 makes the overtime rule fire.
