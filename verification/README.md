# Adaptive quiz: settings validation and the answers statistic

This project models two pure decision procedures of the adaptive quiz
activity module and proves properties of them in Dafny.

- `ModForm` (`mod_form.dfy`) models the server-side validation of the
  activity settings form. It takes the submitted settings and the errors
  already found by the generic module form. It runs the form's checks in the
  form's order: empty question pool, positivity of the counts and levels,
  the standard-error range [0, 50), minimum below maximum, lowest below
  highest, starting level inside [lowest, highest], and a question at the
  starting level. The result is a map from field to message built by
  sequential overwrite, so a later check's message replaces an earlier one.
  A reference definition, `FieldVerdict`, ranks the checks of each field
  from the winning one down. The proofs show that the validator agrees with
  it field by field. The module also models the "attempt completed"
  completion-rule test.
- `AnswersStatistic` (`answers_statistic.dfy`) models the answers statistic of
  the question analysis report. It orders the analyser's results by measured
  ability, highest first, and marks each result as in range against the
  question level. It returns the number of results together with the rendered
  report. The proofs cover sortedness, permutation and the count. They also
  show that any ordering by ability yields the same sequence of abilities,
  and that the number of in-range results does not depend on the order.

Inputs the model takes as parameters instead of computing them:

- the question repository's count of adaptive questions at a level
  (`PoolCounter`), which is a database query;
- the generic module form's own errors (`parent`);
- the HTML rendering of the report lines (`render`).

## Model

| member | source | states |
|---|---|---|
| ModForm.Validation | mod_form.php:233-283 | For every field, the reported message equals the highest-ranked failing check of that field from the reference verdict, or else the generic form's entry for it |
| ModForm.Positivity | mod_form.php:240-263 | The positivity block flags each count and level exactly when it is not above zero, and the standard error exactly when it is outside [0, 50); other fields keep their entry |
| ModForm.Orderings | mod_form.php:265-276 | The ordering block flags the minimum when it is not below the maximum, the lowest level when it is not below the highest, and the starting level when it lies outside [lowest, highest]; other fields keep their entry |
| ModForm.MaximumQuestionsError | mod_form.php:245-247 | The maximum question count has an error iff it is at most zero (or the generic form flagged it); the message is the positivity one |
| ModForm.HighestLevelError | mod_form.php:257-259 | The highest level has an error iff it is at most zero (or the generic form flagged it); the message is the positivity one |
| ModForm.MinimumQuestionsError | mod_form.php:241-268 | The minimum has an error iff it is at most zero or not below the maximum; when not below the maximum, the ordering message overwrites the positivity message |
| ModForm.LowestLevelError | mod_form.php:253-272 | The lowest level has an error iff it is at most zero or not below the highest; the ordering message wins when both fail |
| ModForm.StartingLevelError | mod_form.php:249-276 | The starting level has an error iff it is at most zero or outside [lowest, highest]; the out-of-bounds message wins over the positivity message |
| ModForm.StandardErrorRange | mod_form.php:261-263 | The standard error has an error iff it is below 0 or at least 50, so 0 is accepted and 50 rejected |
| ModForm.QuestionPoolError | mod_form.php:278-294 | With the empty-pool check of line 236: the pool has an error iff it is empty or the count at the starting level is 0; the missing-starting-question message overwrites the empty-pool one whenever the count is 0 |
| ModForm.UncheckedFieldsKept | mod_form.php:234-282 | Every field outside the seven checked ones maps exactly as in the generic form's errors |
| ModForm.ValidationKeepsWellKeyed | mod_form.php:234-280 | Every key the validator writes is one of the seven checked fields, so generic errors with one key per form field give a result with one key per form field |
| ModForm.ValidationKeys | mod_form.php:234-282 | The fields reported are exactly the generic form's fields plus the checked fields some check flags |
| ModForm.NoCheckedErrorIffValid | mod_form.php:236-280 | Given no generic error on the checked fields, none of the seven fields is reported iff the configuration is valid (0 < min < max, 0 < lowest < highest, starting in [lowest, highest], 0 <= se < 50, non-empty pool with a starting question) |
| ModForm.ValidKeepsParent | mod_form.php:234-282 | With every check passing, the result equals the generic form's errors |
| ModForm.MaximumErrorImpliesMinimumError | mod_form.php:245-268 | A flagged non-positive maximum always comes with a flagged minimum |
| ModForm.HighestErrorImpliesLowestError | mod_form.php:257-272 | A flagged non-positive highest level always comes with a flagged lowest level |
| ModForm.StartingNegativeImpliesLowestError | mod_form.php:249-276 | The positivity message survives on the starting level only when the lowest level is not positive, which flags the lowest level too |
| ModForm.EmptyPoolReportsNoStartingQuestions | mod_form.php:236-294 | If the repository counts nothing for an empty category list, an empty pool is reported with the missing-starting-question message, never the empty-pool message |
| ModForm.CompletionRuleEnabled | mod_form.php:216-222 | The completion rule is enabled iff the key is present with a non-null, non-zero value |
| AnswersStatistic.SortByAbility | questionanalysis/lib/statistics/answers_statistic.class.php:51-54 | The sorted results have non-increasing measured ability and are a permutation of the input, with the same length |
| AnswersStatistic.SortedPermutationsAgree | questionanalysis/lib/statistics/answers_statistic.class.php:51-54 | Any two non-increasing orderings of the same results have the same ability at every position, so the unspecified tie order never changes the ability sequence |
| AnswersStatistic.SortIndependentOfInputOrder | questionanalysis/lib/statistics/answers_statistic.class.php:50-54 | Sorting two permutations of the same results yields the same ability at every position |
| AnswersStatistic.InRange | questionanalysis/lib/statistics/answers_statistic.class.php:58-68 | A correct answer is in range iff the question level is at most one standard error above the ability; an incorrect one iff it is at most one standard error below it |
| AnswersStatistic.OutOfRangeIffSurprising | questionanalysis/lib/statistics/answers_statistic.class.php:57-68 | A result is out of range iff it is a correct answer more than one standard error above the ability, or a wrong answer more than one standard error below it |
| AnswersStatistic.WithinErrorBandIsInRange | questionanalysis/lib/statistics/answers_statistic.class.php:58-68 | A question level within one standard error of the ability is in range whether the answer was correct or not |
| AnswersStatistic.InRangeMonotoneInError | questionanalysis/lib/statistics/answers_statistic.class.php:58-68 | Widening the standard error never takes a result out of range |
| AnswersStatistic.CountInRangePermutation | questionanalysis/lib/statistics/answers_statistic.class.php:54-68 | The number of in-range results is the same for any permutation of the results |
| AnswersStatistic.AnswerLines | questionanalysis/lib/statistics/answers_statistic.class.php:48-75 | The report has one line per result, each result exactly once, in non-increasing ability, each marked in range iff its result is in range |
| AnswersStatistic.ReportKeepsInRangeCount | questionanalysis/lib/statistics/answers_statistic.class.php:54-69 | The number of lines the report marks in range equals the number of in-range results among the analyser's results, so sorting before classifying changes no mark count (the statistic itself never computes this number) |
| AnswersStatistic.ResultAccessors | questionanalysis/lib/statistics/answers_statistic.class.php:107-129 | `Sortable()` returns exactly the count and `Printable()` exactly the text the result was built from |
| AnswersStatistic.Calculate | questionanalysis/lib/statistics/answers_statistic.class.php:48-77 | With at least one result, the statistic's sortable value is the number of results and its printable value is the rendering of the report lines; with none, the calculation fails |

## Left out

- The form definition (mod_form.php:37-183) is left out. It wires UI elements, help buttons, client-side rules and defaults.
- `data_preprocessing` (mod_form.php:190-206) is left out because it is file draft-area I/O.
- `add_completion_rules` (mod_form.php:208-214) is left out because it only adds a checkbox element.
- The query behind `count_adaptive_questions_in_pool_with_level` is a database call. It is the `PoolCounter` parameter.
- `parent::validation` is a call into the generic module form. Its result is the `parent` parameter.
- Form values are taken as already cleaned to integers and a real by the form's parameter types. PHP loose comparison of raw strings is not modelled. The standard error is a Dafny `real`, without floating-point rounding.
- ModForm.Validation: field keys are a datatype, not strings. `Other(name)` stands for every field outside the seven checked ones. A generic error whose key spells one of the seven names is assumed to arrive as that field, not as `Other`; the predicate `WellKeyed` states this convention, and `ValidationKeepsWellKeyed` shows the validator preserves it, but `Validation` itself does not require it.
- ModForm.Validation: the question pool always arrives as a list, possibly empty. An absent or null pool passes the emptiness test and then reaches the list-typed parameter of the pool check, where PHP raises a type error and no error map is returned; that failure is not modelled. Nor are the exceptions the method declares for the language-string lookup and the database query: the count always returns a number and the validator always returns a map.
- The localised message text (`get_string`) is left out. Each message is the constructor named after its language string.
- `get_display_name` of the statistic is left out because it only returns a localised string.
- AnswersStatistic.InRange: abilities, standard errors and the question level are exact Dafny reals, while PHP computes with doubles. A sum or difference that rounds can decide the test differently: ability 0.7 with standard error 0.1 against level 0.8, answered correctly, is in range here but out of range in doubles. `OutOfRangeIffSurprising`, `WithinErrorBandIsInRange` and `InRangeMonotoneInError` hold of the real-valued test only.
- The HTML printing, output buffering and `round()` of scaled values are left out. So are the examinees' names and the ability and standard-error scale conversion, whose score class is not part of this model. Rendering is the `render` parameter.
- AnswersStatistic.SortByAbility: the tie order is not part of the contract. The sort call breaks ties between equal abilities by comparing the result objects themselves, which is not modelled. `SortedPermutationsAgree` shows that the tie order cannot change the sequence of abilities.
- AnswersStatistic.Calculate: with no results, the sort-key list is never created and the sort call receives an undefined variable. The model returns `UndefinedSortKeys` for that case. The exact PHP behaviour (a type error, or a warning followed by a count of 0) depends on the PHP version.
- catmodel/helloworld/lib.php is left out. Its two callbacks insert and update a database record, and its only arithmetic is a placeholder multiplication with no stated contract.
- No ability estimator, item selector, stopping rule or attempt state machine appears in the modelled code, so none is modelled.
