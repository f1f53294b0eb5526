/**
 The "answers" statistic of the question analysis report.

 For one question, the analyser supplies every examinee's result (whether the
 answer was correct, and the examinee's measured ability and its standard
 error, both in logits) and the question's own level in logits. The statistic
 orders the results by measured ability, highest first, marks each result as
 in range or not, and returns the number of results together with the
 rendered report.
 */
module AnswersStatistic {

  /** An ability estimate and its standard error, both in logits. */
  datatype Score = Score(abilityInLogits: real, standardErrorInLogits: real)

  /** One examinee's answer to the analysed question. */
  datatype QuestionResult = QuestionResult(correct: bool, score: Score)

  function Ability(r: QuestionResult): real
  {
    r.score.abilityInLogits
  }

  // ---------------------------------------------------------------------
  // Ordering by measured ability.
  // ---------------------------------------------------------------------

  /** Measured ability never increases along the sequence. */
  predicate SortedByAbilityDesc(s: seq<QuestionResult>)
  {
    forall i, j :: 0 <= i < j < |s| ==> Ability(s[i]) >= Ability(s[j])
  }

  /** Places `x` before the first result whose ability is not above its own. */
  function Insert(x: QuestionResult, s: seq<QuestionResult>): (r: seq<QuestionResult>)
    requires SortedByAbilityDesc(s)
    ensures SortedByAbilityDesc(r)
    ensures multiset(r) == multiset(s) + multiset{x}
    ensures |r| == |s| + 1
  {
    if |s| == 0 || Ability(x) >= Ability(s[0]) then
      [x] + s
    else
      var rest := Insert(x, s[1..]);
      assert s == [s[0]] + s[1..];
      assert forall j :: 0 <= j < |rest| ==> Ability(s[0]) >= Ability(rest[j]) by {
        forall j | 0 <= j < |rest| ensures Ability(s[0]) >= Ability(rest[j]) {
          assert rest[j] in multiset(rest);
          if rest[j] != x {
            assert rest[j] in multiset(s[1..]);
            var i :| 0 <= i < |s[1..]| && s[1..][i] == rest[j];
            assert s[i + 1] == rest[j];
          }
        }
      }
      [s[0]] + rest
  }

  /** The results ordered by measured ability, highest first; the relative
      order of results with equal ability is not part of the contract. */
  function SortByAbility(s: seq<QuestionResult>): (r: seq<QuestionResult>)
    ensures SortedByAbilityDesc(r)
    ensures multiset(r) == multiset(s)
    ensures |r| == |s|
  {
    if |s| == 0 then
      []
    else
      assert s == [s[0]] + s[1..];
      Insert(s[0], SortByAbility(s[1..]))
  }

  /** `s` without its element at index `j`. */
  function RemoveAt(s: seq<QuestionResult>, j: nat): (r: seq<QuestionResult>)
    requires j < |s|
    ensures |r| == |s| - 1
    ensures multiset(r) == multiset(s) - multiset{s[j]}
    ensures forall k :: 0 <= k < |r| ==> r[k] == if k < j then s[k] else s[k + 1]
  {
    assert s == s[..j] + [s[j]] + s[j + 1..];
    s[..j] + s[j + 1..]
  }

  /** Removing a result keeps the order. */
  lemma RemoveAtSorted(s: seq<QuestionResult>, j: nat)
    requires j < |s|
    requires SortedByAbilityDesc(s)
    ensures SortedByAbilityDesc(RemoveAt(s, j))
  {
  }

  /** Two orderings by ability of the same results start with the same ability. */
  lemma SortedPermutationsSameTop(a: seq<QuestionResult>, b: seq<QuestionResult>)
    requires SortedByAbilityDesc(a) && SortedByAbilityDesc(b)
    requires multiset(a) == multiset(b)
    requires |a| > 0 && |b| > 0
    ensures Ability(a[0]) == Ability(b[0])
  {
    assert a[0] in multiset(b);
    var j :| 0 <= j < |b| && b[j] == a[0];
    assert b[0] in multiset(a);
    var i :| 0 <= i < |a| && a[i] == b[0];
    assert Ability(a[0]) >= Ability(a[i]);
    assert Ability(b[0]) >= Ability(b[j]);
  }

  /** Removing a result that ties with the first one shifts the abilities by
      one place: every result before it shares the same ability. */
  lemma RemoveTieShifts(b: seq<QuestionResult>, j: nat)
    requires j < |b|
    requires SortedByAbilityDesc(b)
    requires Ability(b[0]) == Ability(b[j])
    ensures forall k :: 0 < k < |b| ==> Ability(b[k]) == Ability(RemoveAt(b, j)[k - 1])
  {
  }

  /** Any two orderings by ability of the same results agree on the ability
      at every position: ties can only swap results of equal ability. */
  lemma {:induction false} SortedPermutationsAgree(a: seq<QuestionResult>, b: seq<QuestionResult>)
    requires SortedByAbilityDesc(a) && SortedByAbilityDesc(b)
    requires multiset(a) == multiset(b)
    ensures |a| == |b|
    ensures forall k :: 0 <= k < |a| ==> Ability(a[k]) == Ability(b[k])
    decreases |a|
  {
    assert |a| == |multiset(a)| == |multiset(b)| == |b|;
    if |a| > 0 {
      SortedPermutationsSameTop(a, b);
      assert a[0] in multiset(b);
      var j :| 0 <= j < |b| && b[j] == a[0];
      var b' := RemoveAt(b, j);
      RemoveAtSorted(b, j);
      assert a == [a[0]] + a[1..];
      assert multiset(a[1..]) == multiset(b') by {
        assert multiset(a) == multiset{a[0]} + multiset(a[1..]);
      }
      SortedPermutationsAgree(a[1..], b');
      RemoveTieShifts(b, j);
      forall k | 0 < k < |a| ensures Ability(a[k]) == Ability(b[k]) {
        assert a[k] == a[1..][k - 1];
      }
    }
  }

  /** The order of abilities the statistic produces does not depend on the
      order in which the analyser returned the results. */
  lemma SortIndependentOfInputOrder(s: seq<QuestionResult>, t: seq<QuestionResult>)
    requires multiset(s) == multiset(t)
    ensures |SortByAbility(s)| == |SortByAbility(t)|
    ensures forall k :: 0 <= k < |s| ==> Ability(SortByAbility(s)[k]) == Ability(SortByAbility(t)[k])
  {
    SortedPermutationsAgree(SortByAbility(s), SortByAbility(t));
  }

  // ---------------------------------------------------------------------
  // Classification.
  // ---------------------------------------------------------------------

  /** A correct answer is in range when ability plus standard error reaches
      the question level; an incorrect one when ability minus standard error
      does not exceed it. */
  predicate InRange(r: QuestionResult, level: real): (b: bool)
    // Measured as the distance from the ability to the question level, on
    // the side the answer makes surprising.
    ensures r.correct ==> (b <==> level - r.score.abilityInLogits <= r.score.standardErrorInLogits)
    ensures !r.correct ==> (b <==> r.score.abilityInLogits - level <= r.score.standardErrorInLogits)
  {
    if r.correct then
      r.score.abilityInLogits + r.score.standardErrorInLogits >= level
    else
      r.score.abilityInLogits - r.score.standardErrorInLogits <= level
  }

  /** A result is out of range exactly when the answer is a surprise given
      the estimate: a correct answer to a question more than one standard
      error above the ability, or a wrong answer to a question more than one
      standard error below it. */
  lemma OutOfRangeIffSurprising(r: QuestionResult, level: real)
    ensures !InRange(r, level) <==>
      var gap := level - r.score.abilityInLogits;
      (r.correct && gap > r.score.standardErrorInLogits) ||
      (!r.correct && -gap > r.score.standardErrorInLogits)
  {
  }

  /** A question level within one standard error of the ability is in range
      whatever the answer. */
  lemma WithinErrorBandIsInRange(r: QuestionResult, level: real)
    requires r.score.abilityInLogits - r.score.standardErrorInLogits <= level
    requires level <= r.score.abilityInLogits + r.score.standardErrorInLogits
    ensures InRange(r, level)
  {
  }

  /** Widening the standard error never takes a result out of range. */
  lemma InRangeMonotoneInError(r: QuestionResult, level: real, wider: real)
    requires wider >= r.score.standardErrorInLogits
    requires InRange(r, level)
    ensures InRange(r.(score := r.score.(standardErrorInLogits := wider)), level)
  {
  }

  /** Number of results in range. */
  function CountInRange(s: seq<QuestionResult>, level: real): (n: nat)
    ensures n <= |s|
  {
    if |s| == 0 then 0 else (if InRange(s[0], level) then 1 else 0) + CountInRange(s[1..], level)
  }

  lemma {:induction false} CountInRangeAppend(a: seq<QuestionResult>, b: seq<QuestionResult>, level: real)
    ensures CountInRange(a + b, level) == CountInRange(a, level) + CountInRange(b, level)
    decreases |a|
  {
    if |a| > 0 {
      assert (a + b)[1..] == a[1..] + b;
      CountInRangeAppend(a[1..], b, level);
    } else {
      assert a + b == b;
    }
  }

  lemma CountInRangeRemoveAt(t: seq<QuestionResult>, j: nat, level: real)
    requires j < |t|
    ensures CountInRange(t, level) == CountInRange(RemoveAt(t, j), level) + (if InRange(t[j], level) then 1 else 0)
  {
    assert t == (t[..j] + [t[j]]) + t[j + 1..];
    assert RemoveAt(t, j) == t[..j] + t[j + 1..];
    CountInRangeAppend(t[..j] + [t[j]], t[j + 1..], level);
    CountInRangeAppend(t[..j], [t[j]], level);
    CountInRangeAppend(t[..j], t[j + 1..], level);
    assert [t[j]][1..] == [];
  }

  /** How many results are in range depends only on which results there are,
      not on their order. */
  lemma {:induction false} CountInRangePermutation(s: seq<QuestionResult>, t: seq<QuestionResult>, level: real)
    requires multiset(s) == multiset(t)
    ensures CountInRange(s, level) == CountInRange(t, level)
    decreases |s|
  {
    assert |s| == |multiset(s)| == |multiset(t)| == |t|;
    if |s| > 0 {
      assert s[0] in multiset(t);
      var j :| 0 <= j < |t| && t[j] == s[0];
      var t' := RemoveAt(t, j);
      assert multiset(s[1..]) == multiset(t') by {
        assert s == [s[0]] + s[1..];
        assert multiset(s) == multiset{s[0]} + multiset(s[1..]);
      }
      CountInRangePermutation(s[1..], t', level);
      CountInRangeRemoveAt(t, j, level);
    }
  }

  // ---------------------------------------------------------------------
  // The report and the statistic's result.
  // ---------------------------------------------------------------------

  /** One line of the report: the result and whether it is in range. */
  datatype ReportLine = ReportLine(result: QuestionResult, inRange: bool)

  function ResultsOf(lines: seq<ReportLine>): (s: seq<QuestionResult>)
    ensures |s| == |lines|
    ensures forall i :: 0 <= i < |lines| ==> s[i] == lines[i].result
  {
    seq(|lines|, i requires 0 <= i < |lines| => lines[i].result)
  }

  /** The report lines, in the order the statistic prints them: every
      result exactly once, abilities non-increasing, each line marked in
      range exactly when its result is. */
  function AnswerLines(results: seq<QuestionResult>, level: real): (lines: seq<ReportLine>)
    ensures |lines| == |results|
    ensures SortedByAbilityDesc(ResultsOf(lines))
    ensures multiset(ResultsOf(lines)) == multiset(results)
    ensures forall i :: 0 <= i < |lines| ==> (lines[i].inRange <==> InRange(lines[i].result, level))
  {
    var sorted := SortByAbility(results);
    var lines := seq(|sorted|, i requires 0 <= i < |sorted| => ReportLine(sorted[i], InRange(sorted[i], level)));
    assert ResultsOf(lines) == sorted;
    lines
  }

  /** Number of report lines marked in range. */
  function CountMarks(lines: seq<ReportLine>): (n: nat)
    ensures n <= |lines|
  {
    if |lines| == 0 then 0 else (if lines[0].inRange then 1 else 0) + CountMarks(lines[1..])
  }

  /** Lines whose marks agree with their results carry as many marks as
      their results have in-range members. */
  lemma {:induction false} CountMarksOfFaithfulLines(lines: seq<ReportLine>, level: real)
    requires forall i :: 0 <= i < |lines| ==> (lines[i].inRange <==> InRange(lines[i].result, level))
    ensures CountMarks(lines) == CountInRange(ResultsOf(lines), level)
    decreases |lines|
  {
    if |lines| > 0 {
      CountMarksOfFaithfulLines(lines[1..], level);
      assert ResultsOf(lines)[1..] == ResultsOf(lines[1..]);
    }
  }

  /** The report marks as many lines in range as there are in-range results
      among the analyser's results, whatever order they came in. */
  lemma ReportKeepsInRangeCount(results: seq<QuestionResult>, level: real)
    ensures CountMarks(AnswerLines(results, level)) == CountInRange(results, level)
  {
    var lines := AnswerLines(results, level);
    CountMarksOfFaithfulLines(lines, level);
    CountInRangePermutation(ResultsOf(lines), results, level);
  }

  /** The statistic's result: the number of results, used to sort questions
      in the analysis table, and the rendered report. */
  datatype StatisticResult = StatisticResult(count: nat, printable: string)
  {
    function Sortable(): nat
    {
      count
    }

    function Printable(): string
    {
      printable
    }
  }

  /** A result hands back exactly the count and the report it was built from. */
  lemma ResultAccessors(count: nat, printable: string)
    ensures StatisticResult(count, printable).Sortable() == count
    ensures StatisticResult(count, printable).Printable() == printable
  {
  }

  /** The outcome of calculating the statistic. With no results the list of
      sort keys is never created and the sort call fails. */
  datatype Calculation = Calculated(result: StatisticResult) | UndefinedSortKeys

  /** Calculates the statistic. The rendering of the report lines to text
      lies outside the model and is passed in as `render`. */
  function Calculate(results: seq<QuestionResult>, level: real, render: seq<ReportLine> -> string): (c: Calculation)
    ensures c.UndefinedSortKeys? <==> |results| == 0
    ensures c.Calculated? ==> c.result.Sortable() == |results|
    ensures c.Calculated? ==> c.result.Printable() == render(AnswerLines(results, level))
  {
    if |results| == 0 then
      UndefinedSortKeys
    else
      var lines := AnswerLines(results, level);
      Calculated(StatisticResult(|lines|, render(lines)))
  }
}
