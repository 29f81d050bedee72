/**
 * QuestionSerializer.validate (interviewhub/serializers.py): the object-level
 * check run on a question's validated attributes before it is saved.
 *
 * `attrs` is the map of field names to values; `instance` is the stored
 * question on an update and None on a create. The in-place assignments of
 * the Scale branch become a map update.
 */
module Serializers {
  import opened Wrappers
  import Json
  import PyStr
  import Models

  type Attrs = map<string, Json.Value>

  /** The literals the validator compares the question type against. */
  const MCQ_TYPE: string := "Multiple Choice"
  const SCALE_TYPE: string := "Scale"

  const MCQ_OPTIONS_MESSAGE: string := "For MCQ, provide a list of >=2 non-empty strings."
  const SCALE_MIN: int := 1
  const SCALE_MAX: int := 5

  /** A refused question: the error body, field name to value. */
  datatype ValidationError = ValidationError(detail: map<string, Json.Value>)

  /** The question type being validated: the submitted one, else the stored one on an update, else none. */
  function EffectiveQType(attrs: Attrs, instance: Option<Models.Question>): (t: Json.Value)
    ensures "qtype" in attrs ==> t == attrs["qtype"]
    ensures "qtype" !in attrs && instance.Some? ==>
              t.Str? && Models.ParseQType(t.s) == Some(instance.value.fields.qtype)
    ensures "qtype" !in attrs && instance.None? ==> t == Json.Null
  {
    if "qtype" in attrs then attrs["qtype"]
    else match instance
      case Some(q) => Json.Str(q.fields.qtype.Code())
      case None => Json.Null
  }

  /** The options being validated: the submitted ones, else the stored ones on an update, else an empty list. */
  function EffectiveOptions(attrs: Attrs, instance: Option<Models.Question>): Json.Value {
    if "options" in attrs then attrs["options"]
    else match instance
      case Some(q) => q.fields.options
      case None => Json.List([])
  }

  /** The options of a multiple-choice question: a list of at least two strings, each non-blank after `strip()`. */
  predicate McqOptionsOk(options: Json.Value) {
    && options.List?
    && |options.items| >= 2
    && forall x :: x in options.items ==> x.Str? && PyStr.Strip(x.s) != []
  }

  /**
   * validate(attrs). A multiple-choice question with bad options is refused
   * with the message and the offending value; a Scale question gets its
   * bounds set; anything else is returned as it came.
   */
  function Validate(attrs: Attrs, instance: Option<Models.Question>): (r: Result<Attrs, ValidationError>)
    ensures r.Success? ==> attrs.Keys <= r.value.Keys <= attrs.Keys + {"scale_min", "scale_max"}
    ensures r.Success? ==> forall k :: k in attrs && k != "scale_min" && k != "scale_max" ==> r.value[k] == attrs[k]
  {
    var qtype := EffectiveQType(attrs, instance);
    var options := EffectiveOptions(attrs, instance);
    if qtype == Json.Str(MCQ_TYPE) && !McqOptionsOk(options) then
      Failure(ValidationError(map["options" := Json.Str(MCQ_OPTIONS_MESSAGE), "options values" := options]))
    else if qtype == Json.Str(SCALE_TYPE) then
      Success(attrs["scale_min" := Json.Int(SCALE_MIN)]["scale_max" := Json.Int(SCALE_MAX)])
    else
      Success(attrs)
  }

  // ---------------------------------------------------------------- properties

  /** The literals in the validator are the model's stored values for those choices. */
  lemma LiteralsMatchModel()
    ensures MCQ_TYPE == Models.QType.MultipleChoice.Code()
    ensures SCALE_TYPE == Models.QType.Scale.Code()
    ensures Models.ParseQType(MCQ_TYPE) == Some(Models.MultipleChoice)
    ensures Models.ParseQType(SCALE_TYPE) == Some(Models.Scale)
  {
  }

  /**
   * The options check, stated without `strip()`: a list of at least two
   * strings, each holding some character that is not whitespace.
   */
  lemma {:induction false} McqOptionsOkIff(options: Json.Value)
    ensures McqOptionsOk(options) <==>
      && options.List?
      && |options.items| >= 2
      && forall i :: 0 <= i < |options.items| ==>
           options.items[i].Str? && PyStr.HasVisibleChar(options.items[i].s)
  {
    if options.List? {
      forall x | x in options.items && x.Str?
        ensures PyStr.Strip(x.s) != [] <==> PyStr.HasVisibleChar(x.s)
      {
        PyStr.StripNonEmptyIff(x.s);
      }
    }
  }

  /** A multiple-choice question is accepted iff its effective options pass the check. */
  lemma McqAcceptedIff(attrs: Attrs, instance: Option<Models.Question>)
    requires EffectiveQType(attrs, instance) == Json.Str(MCQ_TYPE)
    ensures Validate(attrs, instance).Success? <==> McqOptionsOk(EffectiveOptions(attrs, instance))
    ensures Validate(attrs, instance).Success? ==> Validate(attrs, instance).value == attrs
  {
  }

  /** A refusal names "options" with the fixed message and echoes the offending value under "options values". */
  lemma McqRejection(attrs: Attrs, instance: Option<Models.Question>)
    requires EffectiveQType(attrs, instance) == Json.Str(MCQ_TYPE)
    requires !McqOptionsOk(EffectiveOptions(attrs, instance))
    ensures Validate(attrs, instance).Failure?
    ensures Validate(attrs, instance).error.detail.Keys == {"options", "options values"}
    ensures Validate(attrs, instance).error.detail["options"] == Json.Str(MCQ_OPTIONS_MESSAGE)
    ensures Validate(attrs, instance).error.detail["options values"] == EffectiveOptions(attrs, instance)
  {
  }

  /** Only a multiple-choice question is ever refused. */
  lemma OnlyMcqRefused(attrs: Attrs, instance: Option<Models.Question>)
    requires Validate(attrs, instance).Failure?
    ensures EffectiveQType(attrs, instance) == Json.Str(MCQ_TYPE)
  {
  }

  /** On a create there is no stored question: a multiple-choice question sent without options is refused, echoing []. */
  lemma CreateMcqWithoutOptionsRefused(attrs: Attrs)
    requires "qtype" in attrs && attrs["qtype"] == Json.Str(MCQ_TYPE)
    requires "options" !in attrs
    ensures Validate(attrs, None).Failure?
    ensures Validate(attrs, None).error.detail["options values"] == Json.List([])
  {
  }

  /**
   * On an update that sends neither qtype nor options, the stored question's
   * type and options decide: it is refused iff it is a multiple-choice
   * question whose stored options fail the check.
   */
  lemma UpdateFallsBackToInstance(attrs: Attrs, q: Models.Question)
    requires "qtype" !in attrs && "options" !in attrs
    ensures Validate(attrs, Some(q)).Failure? <==>
      q.fields.qtype == Models.MultipleChoice && !McqOptionsOk(q.fields.options)
    ensures q.fields.qtype == Models.Scale ==>
      && Validate(attrs, Some(q)).Success?
      && Validate(attrs, Some(q)).value["scale_min"] == Json.Int(SCALE_MIN)
      && Validate(attrs, Some(q)).value["scale_max"] == Json.Int(SCALE_MAX)
  {
  }

  /**
   * A Scale question is accepted whatever its options, and the result is the
   * input with exactly scale_min = 1 and scale_max = 5 set, so min < max.
   */
  lemma ScaleSetsBounds(attrs: Attrs, instance: Option<Models.Question>)
    requires EffectiveQType(attrs, instance) == Json.Str(SCALE_TYPE)
    ensures Validate(attrs, instance).Success?
    ensures Validate(attrs, instance).value.Keys == attrs.Keys + {"scale_min", "scale_max"}
    ensures Validate(attrs, instance).value["scale_min"] == Json.Int(SCALE_MIN)
    ensures Validate(attrs, instance).value["scale_max"] == Json.Int(SCALE_MAX)
    ensures SCALE_MIN < SCALE_MAX
  {
  }

  /** Any other question type is returned unchanged, whatever its options hold. */
  lemma OtherTypesUnchanged(attrs: Attrs, instance: Option<Models.Question>)
    requires EffectiveQType(attrs, instance) != Json.Str(MCQ_TYPE)
    requires EffectiveQType(attrs, instance) != Json.Str(SCALE_TYPE)
    ensures Validate(attrs, instance) == Success(attrs)
  {
  }

  /** Validating an accepted result again, against the same stored question, gives the same result. */
  lemma ValidateIdempotent(attrs: Attrs, instance: Option<Models.Question>)
    requires Validate(attrs, instance).Success?
    ensures Validate(Validate(attrs, instance).value, instance) == Validate(attrs, instance)
  {
    var out := Validate(attrs, instance).value;
    assert EffectiveQType(out, instance) == EffectiveQType(attrs, instance);
    assert EffectiveOptions(out, instance) == EffectiveOptions(attrs, instance);
    if EffectiveQType(attrs, instance) == Json.Str(SCALE_TYPE) {
      assert out["scale_min" := Json.Int(SCALE_MIN)]["scale_max" := Json.Int(SCALE_MAX)] == out;
    }
  }

  // ---------------------------------------------------------------- the questions of tests/test_flow.py

  /** "Leadership clarity", a Scale question sent without options, is accepted. */
  lemma ScaleQuestionOfFlowAccepted()
    ensures Validate(map["title" := Json.Str("Leadership clarity"), "qtype" := Json.Str("Scale")], None).Success?
  {
    ScaleSetsBounds(map["title" := Json.Str("Leadership clarity"), "qtype" := Json.Str("Scale")], None);
  }

  /** "Preferred tool", a multiple-choice question with options Jira, Confluence and Slack, is accepted unchanged. */
  lemma McqQuestionOfFlowAccepted()
    ensures var attrs := map["title" := Json.Str("Preferred tool"), "qtype" := Json.Str("Multiple Choice"),
                             "options" := Json.List([Json.Str("Jira"), Json.Str("Confluence"), Json.Str("Slack")])];
            Validate(attrs, None) == Success(attrs)
  {
    var opts := Json.List([Json.Str("Jira"), Json.Str("Confluence"), Json.Str("Slack")]);
    forall x | x in opts.items ensures x.Str? && PyStr.Strip(x.s) != [] {
      assert x.s[0] != ' ' && x.s[0] in "JCS";
      assert PyStr.HasVisibleChar(x.s);
      PyStr.StripNonEmptyIff(x.s);
    }
    assert McqOptionsOk(opts);
  }

  /** One blank option among two refuses a multiple-choice question. */
  lemma McqBlankOptionRefused()
    ensures Validate(map["qtype" := Json.Str("Multiple Choice"),
                         "options" := Json.List([Json.Str("Jira"), Json.Str(" \t")])], None).Failure?
  {
    var opts := [Json.Str("Jira"), Json.Str(" \t")];
    McqOptionsOkIff(Json.List(opts));
    assert !PyStr.HasVisibleChar(opts[1].s);
  }

  /** The same blank option does not trouble an open-ended question, whose options are never looked at. */
  lemma OpenEndedBlankOptionAccepted()
    ensures Validate(map["qtype" := Json.Str("Open Ended"), "options" := Json.List([Json.Str(" ")])], None).Success?
  {
  }
}
