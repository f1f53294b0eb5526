/**
 Server-side validation of the adaptive quiz activity settings form, and the
 form's completion-rule test.

 The form submits the question pool (a list of question category ids), the
 question-count bounds, the difficulty levels and the target standard error.
 The validator starts from the errors the generic module form already found,
 runs its checks in a fixed order, and each failing check writes its message
 under its field name, replacing whatever an earlier check wrote there.
 */
module ModForm {

  datatype Option<T> = None | Some(value: T)

  /** The form fields the validator checks; `Other` names any other field of
      the generic module form (never one of the seven above). */
  datatype Field =
    | QuestionPool
    | MinimumQuestions
    | MaximumQuestions
    | StartingLevel
    | LowestLevel
    | HighestLevel
    | StandardError
    | Other(name: string)

  /** The form's key for each checked field. */
  function CheckedName(f: Field): (name: string)
    requires f in CheckedFields
  {
    match f
    case QuestionPool => "questionpool"
    case MinimumQuestions => "minimumquestions"
    case MaximumQuestions => "maximumquestions"
    case StartingLevel => "startinglevel"
    case LowestLevel => "lowestlevel"
    case HighestLevel => "highestlevel"
    case StandardError => "standarderror"
  }

  /** No `Other` key spells the name of a checked field, so every form key
      has exactly one field. */
  predicate WellKeyed<V>(m: map<Field, V>)
  {
    forall k, f :: k in m && k.Other? && f in CheckedFields ==> k.name != CheckedName(f)
  }

  /** The seven fields this validator checks. */
  const CheckedFields: set<Field> :=
    {QuestionPool, MinimumQuestions, MaximumQuestions, StartingLevel,
     LowestLevel, HighestLevel, StandardError}

  /** The messages the validator attaches to a field. Each constructor but the
      last names the language string the form looks up; `Inherited` carries a
      message produced by the generic module-form validation. */
  datatype Message =
    | FormQuestionPool
    | FormElementNegative
    | FormStdError
    | FormMinQuestGreaterThan
    | FormLowLevelGreaterThan
    | FormStartLevelOutOfBounds
    | NoValidStartingQuestions
    | Inherited(text: string)

  /** Field to error message, as the form returns it. */
  type Errors = map<Field, Message>

  /** The submitted settings, already cleaned to integers and a real by the
      form's parameter types. */
  datatype Settings = Settings(
    questionPool: seq<int>,
    minimumQuestions: int,
    maximumQuestions: int,
    startingLevel: int,
    lowestLevel: int,
    highestLevel: int,
    standardError: real)

  /** The question repository's count of adaptive questions tagged with a
      level inside a list of categories; the database query itself lies
      outside the model, so the validator receives it as a parameter. */
  type PoolCounter = (seq<int>, int) -> nat

  /** What the form reports for `field`, if anything. */
  function Lookup(errors: Errors, field: Field): Option<Message>
  {
    if field in errors then Some(errors[field]) else None
  }

  /** A field's own verdict if it has one, else the entry it already had. */
  function Override(own: Option<Message>, inherited: Option<Message>): Option<Message>
  {
    match own
    case Some(m) => Some(m)
    case None => inherited
  }

  /** The generic form's errors, lifted to messages. */
  function Inherit(parent: map<Field, string>): (r: Errors)
    ensures r.Keys == parent.Keys
    ensures forall k :: k in r ==> r[k] == Inherited(parent[k])
  {
    map k | k in parent :: Inherited(parent[k])
  }

  /** One validation step: a failing check overwrites the field's entry and
      leaves every other field alone. */
  function Flag(errors: Errors, failed: bool, field: Field, msg: Message): (r: Errors)
    ensures forall k :: Lookup(r, k) == if failed && k == field then Some(msg) else Lookup(errors, k)
  {
    if failed then errors[field := msg] else errors
  }

  /** True when the starting level lies in [lowest, highest]. */
  predicate StartInBounds(data: Settings)
  {
    data.lowestLevel <= data.startingLevel <= data.highestLevel
  }

  /** The positivity checks, in the form's order: both question counts and
      all three levels must be above zero, and the standard error must lie
      in [0, 50). */
  function Positivity(errors: Errors, data: Settings): (r: Errors)
    ensures forall k :: Lookup(r, k) == Override(PositivityVerdict(data, k), Lookup(errors, k))
  {
    var e := Flag(errors, 0 >= data.minimumQuestions, MinimumQuestions, FormElementNegative);
    var e := Flag(e, 0 >= data.maximumQuestions, MaximumQuestions, FormElementNegative);
    var e := Flag(e, 0 >= data.startingLevel, StartingLevel, FormElementNegative);
    var e := Flag(e, 0 >= data.lowestLevel, LowestLevel, FormElementNegative);
    var e := Flag(e, 0 >= data.highestLevel, HighestLevel, FormElementNegative);
    Flag(e, 0.0 > data.standardError || 50.0 <= data.standardError, StandardError, FormStdError)
  }

  /** The ordering checks, in the form's order: minimum below maximum, lowest
      below highest, and the starting level inside [lowest, highest]. */
  function Orderings(errors: Errors, data: Settings): (r: Errors)
    ensures forall k :: Lookup(r, k) == Override(OrderingVerdict(data, k), Lookup(errors, k))
  {
    var e := Flag(errors, data.minimumQuestions >= data.maximumQuestions, MinimumQuestions, FormMinQuestGreaterThan);
    var e := Flag(e, data.lowestLevel >= data.highestLevel, LowestLevel, FormLowLevelGreaterThan);
    Flag(e, !(data.startingLevel >= data.lowestLevel && data.startingLevel <= data.highestLevel),
         StartingLevel, FormStartLevelOutOfBounds)
  }

  /** The form's validation: starting from the generic form's errors, the
      empty-pool check, the positivity checks, the ordering checks and the
      starting-question check, each overwriting what came before. Field by
      field it agrees with the reference verdict. */
  function Validation(data: Settings, parent: map<Field, string>, count: PoolCounter): (r: Errors)
    ensures forall k :: Lookup(r, k) == Override(FieldVerdict(data, count, k), Lookup(Inherit(parent), k))
  {
    var e := Flag(Inherit(parent), |data.questionPool| == 0, QuestionPool, FormQuestionPool);
    var e := Orderings(Positivity(e, data), data);
    Flag(e, count(data.questionPool, data.startingLevel) == 0, QuestionPool, NoValidStartingQuestions)
  }

  /** Reference for the positivity checks alone. */
  function PositivityVerdict(data: Settings, k: Field): Option<Message>
  {
    match k
    case MinimumQuestions => if data.minimumQuestions <= 0 then Some(FormElementNegative) else None
    case MaximumQuestions => if data.maximumQuestions <= 0 then Some(FormElementNegative) else None
    case StartingLevel => if data.startingLevel <= 0 then Some(FormElementNegative) else None
    case LowestLevel => if data.lowestLevel <= 0 then Some(FormElementNegative) else None
    case HighestLevel => if data.highestLevel <= 0 then Some(FormElementNegative) else None
    case StandardError =>
      if data.standardError < 0.0 || data.standardError >= 50.0 then Some(FormStdError) else None
    case _ => None
  }

  /** Reference for the ordering checks alone. */
  function OrderingVerdict(data: Settings, k: Field): Option<Message>
  {
    match k
    case MinimumQuestions =>
      if data.minimumQuestions >= data.maximumQuestions then Some(FormMinQuestGreaterThan) else None
    case LowestLevel =>
      if data.lowestLevel >= data.highestLevel then Some(FormLowLevelGreaterThan) else None
    case StartingLevel => if !StartInBounds(data) then Some(FormStartLevelOutOfBounds) else None
    case _ => None
  }

  /** Reference definition, field by field: the message a field ends up with
      from the validator's own checks, ranking the checks from the one that
      wins down to the one it overwrites. */
  function FieldVerdict(data: Settings, count: PoolCounter, k: Field): Option<Message>
  {
    match k
    case QuestionPool =>
      if count(data.questionPool, data.startingLevel) == 0 then Some(NoValidStartingQuestions)
      else if |data.questionPool| == 0 then Some(FormQuestionPool)
      else None
    case MinimumQuestions =>
      if data.minimumQuestions >= data.maximumQuestions then Some(FormMinQuestGreaterThan)
      else if data.minimumQuestions <= 0 then Some(FormElementNegative)
      else None
    case MaximumQuestions =>
      if data.maximumQuestions <= 0 then Some(FormElementNegative) else None
    case StartingLevel =>
      if !StartInBounds(data) then Some(FormStartLevelOutOfBounds)
      else if data.startingLevel <= 0 then Some(FormElementNegative)
      else None
    case LowestLevel =>
      if data.lowestLevel >= data.highestLevel then Some(FormLowLevelGreaterThan)
      else if data.lowestLevel <= 0 then Some(FormElementNegative)
      else None
    case HighestLevel =>
      if data.highestLevel <= 0 then Some(FormElementNegative) else None
    case StandardError =>
      if data.standardError < 0.0 || data.standardError >= 50.0 then Some(FormStdError) else None
    case Other(_) => None
  }

  /** The checked fields that some check flags. */
  function FlaggedFields(data: Settings, count: PoolCounter): set<Field>
  {
    set k | k in CheckedFields && FieldVerdict(data, count, k).Some?
  }

  // ---------------------------------------------------------------------
  // Field by field.
  // ---------------------------------------------------------------------

  /** The maximum question count is flagged exactly when it is not positive. */
  lemma MaximumQuestionsError(data: Settings, parent: map<Field, string>, count: PoolCounter)
    ensures var r := Validation(data, parent, count);
      && (MaximumQuestions in r <==> data.maximumQuestions <= 0 || MaximumQuestions in parent)
      && (data.maximumQuestions <= 0 ==> r[MaximumQuestions] == FormElementNegative)
  {
  }

  /** The highest level is flagged exactly when it is not positive. */
  lemma HighestLevelError(data: Settings, parent: map<Field, string>, count: PoolCounter)
    ensures var r := Validation(data, parent, count);
      && (HighestLevel in r <==> data.highestLevel <= 0 || HighestLevel in parent)
      && (data.highestLevel <= 0 ==> r[HighestLevel] == FormElementNegative)
  {
  }

  /** The minimum question count is flagged when it is not positive or not
      below the maximum; the ordering message wins over the positivity one. */
  lemma MinimumQuestionsError(data: Settings, parent: map<Field, string>, count: PoolCounter)
    ensures var r := Validation(data, parent, count);
      && (MinimumQuestions in r <==>
            data.minimumQuestions <= 0 || data.minimumQuestions >= data.maximumQuestions || MinimumQuestions in parent)
      && (data.minimumQuestions >= data.maximumQuestions ==> r[MinimumQuestions] == FormMinQuestGreaterThan)
      && (data.minimumQuestions <= 0 && data.minimumQuestions < data.maximumQuestions ==>
            r[MinimumQuestions] == FormElementNegative)
  {
  }

  /** The lowest level is flagged when it is not positive or not below the
      highest level; the ordering message wins over the positivity one. */
  lemma LowestLevelError(data: Settings, parent: map<Field, string>, count: PoolCounter)
    ensures var r := Validation(data, parent, count);
      && (LowestLevel in r <==>
            data.lowestLevel <= 0 || data.lowestLevel >= data.highestLevel || LowestLevel in parent)
      && (data.lowestLevel >= data.highestLevel ==> r[LowestLevel] == FormLowLevelGreaterThan)
      && (data.lowestLevel <= 0 && data.lowestLevel < data.highestLevel ==> r[LowestLevel] == FormElementNegative)
  {
  }

  /** The starting level is flagged when it is not positive or lies outside
      [lowest, highest]; the out-of-bounds message wins over the positivity one. */
  lemma StartingLevelError(data: Settings, parent: map<Field, string>, count: PoolCounter)
    ensures var r := Validation(data, parent, count);
      && (StartingLevel in r <==>
            data.startingLevel <= 0 || data.startingLevel < data.lowestLevel ||
            data.startingLevel > data.highestLevel || StartingLevel in parent)
      && (data.startingLevel < data.lowestLevel || data.startingLevel > data.highestLevel ==>
            r[StartingLevel] == FormStartLevelOutOfBounds)
      && (data.startingLevel <= 0 && data.lowestLevel <= data.startingLevel <= data.highestLevel ==>
            r[StartingLevel] == FormElementNegative)
  {
  }

  /** The standard error is accepted exactly on the half-open range [0, 50):
      zero passes and fifty does not. */
  lemma StandardErrorRange(data: Settings, parent: map<Field, string>, count: PoolCounter)
    ensures var r := Validation(data, parent, count);
      && (StandardError in r <==>
            data.standardError < 0.0 || data.standardError >= 50.0 || StandardError in parent)
      && (data.standardError < 0.0 || data.standardError >= 50.0 ==> r[StandardError] == FormStdError)
  {
  }

  /** The pool is flagged when it is empty or holds no question at the
      starting level; the missing-starting-question message wins. */
  lemma QuestionPoolError(data: Settings, parent: map<Field, string>, count: PoolCounter)
    ensures var r := Validation(data, parent, count);
      var n := count(data.questionPool, data.startingLevel);
      && (QuestionPool in r <==> |data.questionPool| == 0 || n == 0 || QuestionPool in parent)
      && (n == 0 ==> r[QuestionPool] == NoValidStartingQuestions)
      && (|data.questionPool| == 0 && n > 0 ==> r[QuestionPool] == FormQuestionPool)
  {
  }

  /** Every field outside the seven checked ones keeps exactly the generic
      form's entry. */
  lemma UncheckedFieldsKept(data: Settings, parent: map<Field, string>, count: PoolCounter)
    ensures Validation(data, parent, count) - CheckedFields == Inherit(parent) - CheckedFields
  {
    var r := Validation(data, parent, count) - CheckedFields;
    var p := Inherit(parent) - CheckedFields;
    forall k ensures k in r <==> k in p {
      assert Lookup(Validation(data, parent, count), k) ==
             Override(FieldVerdict(data, count, k), Lookup(Inherit(parent), k));
    }
    forall k | k in r ensures r[k] == p[k] {
      assert Lookup(Validation(data, parent, count), k) ==
             Override(FieldVerdict(data, count, k), Lookup(Inherit(parent), k));
    }
  }

  /** Validation adds only checked fields, so generic errors that keep one
      key per form field give a result that does too. */
  lemma ValidationKeepsWellKeyed(data: Settings, parent: map<Field, string>, count: PoolCounter)
    requires WellKeyed(parent)
    ensures WellKeyed(Validation(data, parent, count))
  {
    var r := Validation(data, parent, count);
    forall k | k in r && k.Other? ensures k in parent {
      assert Lookup(r, k) == Override(FieldVerdict(data, count, k), Lookup(Inherit(parent), k));
    }
  }

  /** The fields reported are the generic form's plus the flagged ones. */
  lemma ValidationKeys(data: Settings, parent: map<Field, string>, count: PoolCounter)
    ensures Validation(data, parent, count).Keys == parent.Keys + FlaggedFields(data, count)
  {
  }

  // ---------------------------------------------------------------------
  // The whole configuration.
  // ---------------------------------------------------------------------

  /** A configuration an attempt may start from: minimum question count
      positive and below the maximum, lowest level positive and below the
      highest, the starting level inside [lowest, highest], the standard
      error in [0, 50), and a non-empty pool with a question at the starting
      level. */
  predicate ValidConfig(data: Settings, count: PoolCounter)
  {
    && 0 < data.minimumQuestions < data.maximumQuestions
    && 0 < data.lowestLevel < data.highestLevel
    && StartInBounds(data)
    && 0.0 <= data.standardError < 50.0
    && |data.questionPool| > 0
    && count(data.questionPool, data.startingLevel) > 0
  }

  /** When the generic form reports nothing on the checked fields, the
      validator reports nothing on them exactly for a valid configuration;
      the positivity checks on the maximum, the highest and the starting
      level add no condition of their own. */
  lemma NoCheckedErrorIffValid(data: Settings, parent: map<Field, string>, count: PoolCounter)
    requires parent.Keys !! CheckedFields
    ensures Validation(data, parent, count).Keys !! CheckedFields <==> ValidConfig(data, count)
  {
  }

  /** With every check passing, the validator returns the generic form's
      errors unchanged. */
  lemma ValidKeepsParent(data: Settings, parent: map<Field, string>, count: PoolCounter)
    requires ValidConfig(data, count)
    ensures Validation(data, parent, count) == Inherit(parent)
  {
  }

  /** A flagged maximum always comes with a flagged minimum: either the
      minimum is not below the maximum, or it is below it and so not positive. */
  lemma MaximumErrorImpliesMinimumError(data: Settings, parent: map<Field, string>, count: PoolCounter)
    requires MaximumQuestions in Validation(data, parent, count)
    requires MaximumQuestions !in parent
    ensures MinimumQuestions in Validation(data, parent, count)
  {
  }

  /** A flagged highest level always comes with a flagged lowest level. */
  lemma HighestErrorImpliesLowestError(data: Settings, parent: map<Field, string>, count: PoolCounter)
    requires HighestLevel in Validation(data, parent, count)
    requires HighestLevel !in parent
    ensures LowestLevel in Validation(data, parent, count)
  {
  }

  /** The positivity message survives on the starting level only when the
      lowest level is not positive either, so the lowest level is flagged too. */
  lemma StartingNegativeImpliesLowestError(data: Settings, parent: map<Field, string>, count: PoolCounter)
    requires StartingLevel in Validation(data, parent, count)
    requires Validation(data, parent, count)[StartingLevel] == FormElementNegative
    ensures data.lowestLevel <= 0
    ensures LowestLevel in Validation(data, parent, count)
  {
  }

  /** An empty pool reports the missing starting question rather than the
      empty pool whenever the repository counts nothing in no categories. */
  lemma EmptyPoolReportsNoStartingQuestions(data: Settings, parent: map<Field, string>, count: PoolCounter)
    requires |data.questionPool| == 0
    requires count([], data.startingLevel) == 0
    ensures Validation(data, parent, count)[QuestionPool] == NoValidStartingQuestions
  {
  }

  // ---------------------------------------------------------------------
  // Completion rule.
  // ---------------------------------------------------------------------

  const CompletionAttemptCompleted: string := "completionattemptcompleted"

  /** Submitted form values as the completion rules see them: an absent key
      and a null value are both "not set". */
  datatype Submitted = Null | Number(n: int)

  /** The "attempt completed" completion rule is enabled exactly when its
      checkbox was submitted with a non-zero value. */
  function CompletionRuleEnabled(data: map<string, Submitted>): (r: bool)
    ensures r <==> exists v :: v != 0 && CompletionAttemptCompleted in data && data[CompletionAttemptCompleted] == Number(v)
  {
    if CompletionAttemptCompleted !in data || data[CompletionAttemptCompleted].Null? then
      false
    else
      data[CompletionAttemptCompleted].n != 0
  }
}
