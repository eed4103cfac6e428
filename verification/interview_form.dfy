/**
 * The interview-request form: its validation schema, its default values, and
 * the two pieces of component state (`isGenerating`, `generatedInterview`)
 * that submitting and "Create Another" update.
 */
module InterviewForm {
  import opened Wrappers
  import opened Types
  import opened InterviewsRoute

  /** The form's fields, all strings as the inputs deliver them. */
  datatype FormValues = FormValues(role: string, level: string, interviewType: string, techstack: string, amount: string)

  datatype Field = Role | Level | InterviewType | Techstack | Amount

  /** A validation issue: the field and the schema's message (none where the enum's default message applies). */
  datatype Issue = Issue(field: Field, message: Option<string>)

  const Levels: seq<string> := ["Junior", "Mid-Level", "Senior", "Lead"]
  const InterviewTypes: seq<string> := ["Technical", "Behavioral", "Mixed"]

  const RoleMessage := "Role must be at least 2 characters"
  const TechstackMessage := "Please enter at least one technology"
  const AmountMessage := "Please select number of questions"

  /** `interviewFormSchema`, read field by field. */
  predicate Conforms(v: FormValues) {
    && |v.role| >= 2
    && v.level in Levels
    && v.interviewType in InterviewTypes
    && |v.techstack| >= 2
    && |v.amount| >= 1
  }

  /** The message the schema attaches to a failing field. */
  function MessageOf(f: Field): Option<string> {
    match f
    case Role => Some(RoleMessage)
    case Techstack => Some(TechstackMessage)
    case Amount => Some(AmountMessage)
    case _ => None
  }

  /** Some issue in `issues` concerns field `f`. */
  predicate Reports(issues: seq<Issue>, f: Field) {
    exists i :: 0 <= i < |issues| && issues[i].field == f
  }

  /** The issues the schema reports, one per failing field, in schema order. */
  function Validate(v: FormValues): (issues: seq<Issue>)
    ensures issues == [] <==> Conforms(v)
    ensures Reports(issues, Role) <==> |v.role| < 2
    ensures Reports(issues, Level) <==> v.level !in Levels
    ensures Reports(issues, InterviewType) <==> v.interviewType !in InterviewTypes
    ensures Reports(issues, Techstack) <==> |v.techstack| < 2
    ensures Reports(issues, Amount) <==> |v.amount| < 1
    ensures forall i :: 0 <= i < |issues| ==> issues[i].message == MessageOf(issues[i].field)
    ensures |issues| <= 5
    ensures forall i, j :: 0 <= i < j < |issues| ==> issues[i].field != issues[j].field
  {
    IssuesOf(|v.role| < 2, v.level !in Levels, v.interviewType !in InterviewTypes, |v.techstack| < 2, |v.amount| < 1)
  }

  /** The issues for the given failing fields, in schema order. */
  function IssuesOf(role: bool, level: bool, kind: bool, tech: bool, amount: bool): (issues: seq<Issue>)
    ensures issues == [] <==> !role && !level && !kind && !tech && !amount
    ensures Reports(issues, Role) <==> role
    ensures Reports(issues, Level) <==> level
    ensures Reports(issues, InterviewType) <==> kind
    ensures Reports(issues, Techstack) <==> tech
    ensures Reports(issues, Amount) <==> amount
    ensures Labelled(issues) && DistinctFields(issues) && |issues| <= 5
  {
    var upToLevel := IssueIf(role, Role) + IssueIf(level, Level);
    ConcatIssues(IssueIf(role, Role), IssueIf(level, Level));
    var upToKind := upToLevel + IssueIf(kind, InterviewType);
    ConcatIssues(upToLevel, IssueIf(kind, InterviewType));
    var upToTech := upToKind + IssueIf(tech, Techstack);
    ConcatIssues(upToKind, IssueIf(tech, Techstack));
    ConcatIssues(upToTech, IssueIf(amount, Amount));
    var issues := upToTech + IssueIf(amount, Amount);
    assert issues != [] ==> Reports(issues, issues[0].field);
    issues
  }

  /** Every issue carries its field's message. */
  predicate Labelled(issues: seq<Issue>) {
    forall i :: 0 <= i < |issues| ==> issues[i].message == MessageOf(issues[i].field)
  }

  /** No field is reported twice. */
  predicate DistinctFields(issues: seq<Issue>) {
    forall i, j :: 0 <= i < j < |issues| ==> issues[i].field != issues[j].field
  }

  /** The issue for field `f` when `failing`, with the schema's message. */
  function IssueIf(failing: bool, f: Field): (r: seq<Issue>)
    ensures Reports(r, f) <==> failing
    ensures forall g :: g != f ==> !Reports(r, g)
    ensures |r| <= 1 && Labelled(r) && DistinctFields(r)
  {
    if failing then
      var r := [Issue(f, MessageOf(f))];
      assert r[0].field == f;
      r
    else []
  }

  /**
   * Appending issues about other fields keeps every message and the fields
   * distinct; the result reports a field exactly when one of the parts does.
   */
  lemma ConcatIssues(a: seq<Issue>, b: seq<Issue>)
    requires Labelled(a) && Labelled(b) && DistinctFields(a) && DistinctFields(b)
    requires forall f :: Reports(a, f) ==> !Reports(b, f)
    ensures Labelled(a + b) && DistinctFields(a + b)
    ensures forall f :: Reports(a + b, f) <==> Reports(a, f) || Reports(b, f)
  {
    forall f ensures Reports(a + b, f) <==> Reports(a, f) || Reports(b, f) {
      ReportsConcat(a, b, f);
    }
    forall i, j | 0 <= i < j < |a + b| ensures (a + b)[i].field != (a + b)[j].field {
      if i < |a| && j >= |a| {
        assert Reports(a, a[i].field);
        assert b[j - |a|] == (a + b)[j];
        assert !Reports(b, a[i].field);
      }
    }
  }

  /** An issue of `a + b` concerns `f` exactly when one in `a` or one in `b` does. */
  lemma ReportsConcat(a: seq<Issue>, b: seq<Issue>, f: Field)
    ensures Reports(a + b, f) <==> Reports(a, f) || Reports(b, f)
  {
    if Reports(a + b, f) {
      var i :| 0 <= i < |a + b| && (a + b)[i].field == f;
      if i >= |a| {
        assert b[i - |a|].field == f;
      }
    }
    if Reports(a, f) {
      var j :| 0 <= j < |a| && a[j].field == f;
      assert (a + b)[j].field == f;
    }
    if Reports(b, f) {
      var j :| 0 <= j < |b| && b[j].field == f;
      assert (a + b)[|a| + j].field == f;
    }
  }

  const DefaultValues: FormValues := FormValues("", "Junior", "Mixed", "", "5")

  /**
   * The defaults alone do not validate: role and tech stack are empty. Filling
   * in those two is enough.
   */
  lemma DefaultValuesIssues(role: string, techstack: string)
    ensures Validate(DefaultValues) == [Issue(Role, Some(RoleMessage)), Issue(Techstack, Some(TechstackMessage))]
    ensures |role| >= 2 && |techstack| >= 2 ==> Conforms(DefaultValues.(role := role, techstack := techstack))
  {
    assert DefaultValues.level == Levels[0];
    assert DefaultValues.interviewType == InterviewTypes[2];
  }

  /** How a submission's requests end. */
  datatype SubmitOutcome =
    | RequestFailed                                     // the generate request threw
    | GenerationFailed                                  // it answered `success: false`
    | Generated(latest: Option<InterviewsRoute.Response>) // the follow-up fetch's answer; none if it threw

  /** The interview shown after a submission, given the one shown before. */
  function ShownAfter(before: Option<Doc>, outcome: SubmitOutcome): Option<Doc> {
    match outcome
    case Generated(Some(Response(_, Items(items)))) =>
      if |items| > 0 then Some(items[0]) else before
    case _ => before
  }

  /**
   * After a successful generation, the form shows the user's most recent
   * interview as the endpoint reports it; when the endpoint has nothing (no
   * interview, or an error answer), what was shown stays.
   */
  lemma GeneratedShowsLatest(before: Option<Doc>, userId: string, collection: seq<Doc>)
    requires userId != ""
    ensures var after := ShownAfter(before, Generated(Some(InterviewsRoute.Get(Some(userId), Some(collection)))));
            && ((exists d :: d in collection && d.data.userId == userId) ==>
                  && after.Some?
                  && after.value in collection
                  && after.value.data.userId == userId
                  && forall d :: d in collection && d.data.userId == userId ==> d.data.createdAt <= after.value.data.createdAt)
            && (!(exists d :: d in collection && d.data.userId == userId) ==> after == before)
  {
    InterviewsRoute.GetReturnsLatest(userId, collection);
  }

  /** Failed generations and failed fetches never change what is shown. */
  lemma FailuresKeepShown(before: Option<Doc>, userId: string)
    ensures ShownAfter(before, RequestFailed) == before
    ensures ShownAfter(before, GenerationFailed) == before
    ensures ShownAfter(before, Generated(None)) == before
    ensures ShownAfter(before, Generated(Some(InterviewsRoute.Get(None, None)))) == before
    ensures ShownAfter(before, Generated(Some(InterviewsRoute.Get(Some(userId), None)))) == before
  {
  }

  /** The component's state. */
  class FormState {
    var isGenerating: bool
    var generatedInterview: Option<Doc>

    constructor ()
      ensures !isGenerating && generatedInterview == None
    {
      isGenerating := false;
      generatedInterview := None;
    }

    /**
     * `form.handleSubmit(onSubmit)` up to the first request: `onSubmit` runs,
     * and sets `isGenerating`, only when the values pass the schema.
     */
    method Submit(values: FormValues) returns (started: bool)
      modifies this
      ensures started <==> Conforms(values)
      ensures isGenerating == (started || old(isGenerating))
      ensures generatedInterview == old(generatedInterview)
    {
      started := Validate(values) == [];
      if started {
        isGenerating := true;
      }
    }

    /**
     * The rest of `onSubmit` once its requests settle: the first fetched
     * interview is shown on success, and the `finally` clears `isGenerating`
     * whatever happened.
     */
    method Settle(outcome: SubmitOutcome)
      requires isGenerating
      modifies this
      ensures !isGenerating
      ensures generatedInterview == ShownAfter(old(generatedInterview), outcome)
      ensures outcome.Generated? && outcome.latest.Some? && outcome.latest.value.body.Items?
              && |outcome.latest.value.body.items| > 0 ==>
                StartVoiceTarget() == Some("/interview/" + outcome.latest.value.body.items[0].id)
      ensures !outcome.Generated? ==> StartVoiceTarget() == old(StartVoiceTarget())
    {
      if outcome.Generated? && outcome.latest.Some? && outcome.latest.value.body.Items? {
        var items := outcome.latest.value.body.items;
        if |items| > 0 {
          generatedInterview := Some(items[0]);
        }
      }
      isGenerating := false;
    }

    /** "Create Another Interview": back to the empty form. */
    method CreateAnother()
      modifies this
      ensures generatedInterview == None
      ensures isGenerating == old(isGenerating)
      ensures StartVoiceTarget() == None
    {
      generatedInterview := None;
    }

    /** `handleStartVoiceInterview`: where it navigates, if anywhere. */
    function StartVoiceTarget(): (r: Option<string>)
      reads this
      ensures r.Some? <==> generatedInterview.Some?
      ensures r.Some? ==> r.value == "/interview/" + generatedInterview.value.id
    {
      match generatedInterview
      case None => None
      case Some(d) => Some("/interview/" + d.id)
    }
  }
}
