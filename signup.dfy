/**
 * The signup form controller of src/App.js (`Landing`): its submission state
 * machine, the display state derived from it on every render, and the object
 * whose fields the setters, the submit handler and the count callbacks update.
 *
 * The two backend calls are not modelled; what they come to is a parameter:
 * `PostOutcome` for `postResponse`, an `Option<int>` or a failure callback for
 * `getResponseCount`.
 */
module Signup {
  import opened Wrappers
  import opened Validation

  /** The submission status; only `Error` carries data: the issues and, for an
      error the server reported, the parameters that were submitted. */
  datatype Status =
    | Fresh
    | Pending
    | Error(issues: IssueSet, params: Option<FormParams>)
    | Success

  /** What `await postResponse(params)` comes to: a reply object with its
      `status` string and optional `issues`, or a rejection/exception. */
  datatype PostOutcome =
    | Resolved(status: string, issues: Option<IssueSet>)
    | Threw

  /** `{ base: 'error' }`, the generic form-level issue. */
  const BaseError: IssueSet := map[Base := ErrorCode]

  // ---------------------------------------------------------------------------
  // handleSubmit

  /** The status set before the backend is called: the local issues, or `pending`. */
  function ValidatedStatus(p: FormParams): (s: Status)
    ensures s.Pending? <==> Validate(p).None?
    ensures s.Error? ==> Validate(p) == Some(s.issues) && s.params.None?
    ensures s.Pending? || s.Error?
  {
    match Validate(p)
    case Some(issues) => Error(issues, None)
    case None => Pending
  }

  /** The status set once the backend call for `submitted` has come to `outcome`. */
  function SettledStatus(submitted: FormParams, outcome: PostOutcome): (s: Status)
    ensures s.Error? || s.Success?
    ensures s.Success? <==> outcome.Resolved? && outcome.status != "error"
    ensures s.Error? && s.params.Some? <==> outcome.Resolved? && outcome.status == "error"
    ensures s.Error? && s.params.Some? ==>
      s.params.value == submitted && s.issues == outcome.issues.GetOr(BaseError)
    ensures s.Error? && s.params.None? ==> outcome.Threw? && s.issues == BaseError
  {
    match outcome
    case Resolved(replyStatus, issues) =>
      if replyStatus == "error" then Error(issues.GetOr(BaseError), Some(submitted)) else Success
    case Threw => Error(BaseError, None)
  }

  /** Every status `handleSubmit` sets, in order, when the form holds `p` and the
      backend call, if one is made, comes to `outcome`. */
  function SubmitStatuses(p: FormParams, outcome: PostOutcome): (trace: seq<Status>)
    ensures |trace| > 0 && (trace[|trace| - 1].Error? || trace[|trace| - 1].Success?)
    ensures Pending in trace <==> Validate(p).None?
    ensures Validate(p).Some? ==> trace == [Error(Validate(p).value, None)]
    ensures Validate(p).None? ==> |trace| == 2 && trace[0] == Pending && trace[1] == SettledStatus(p, outcome)
  {
    var first := ValidatedStatus(p);
    if first.Pending? then [first, SettledStatus(p, outcome)] else [first]
  }

  /** A server error saying the email is taken keeps the snapshot of what was
      submitted; a failed call and a server error without issues both give the
      generic base issue. */
  lemma ServerErrorOutcomes(submitted: FormParams, issues: IssueSet)
    ensures SettledStatus(submitted, Resolved("error", Some(issues))) == Error(issues, Some(submitted))
    ensures SettledStatus(submitted, Resolved("error", None)) == Error(BaseError, Some(submitted))
    ensures SettledStatus(submitted, Resolved("ok", None)) == Success
    ensures SettledStatus(submitted, Threw) == Error(BaseError, None)
  {
  }

  lemma SubmitEmptyForm(outcome: PostOutcome)
    ensures SubmitStatuses(FormParams("", ""), outcome) == [Error(map[Name := Required, Email := Required], None)]
  {
    ValidateEmptyForm();
  }

  lemma SubmitWellFormedForm(outcome: PostOutcome)
    ensures SubmitStatuses(FormParams("A", "a@b.co"), outcome)
         == [Pending, SettledStatus(FormParams("A", "a@b.co"), outcome)]
  {
    ValidateWellFormedEmail();
  }

  // ---------------------------------------------------------------------------
  // Derived display state

  /** The submit button is enabled: the count has been loaded and no
      submission is in flight. */
  predicate CanSubmit(responseCount: Option<int>, status: Status)
    ensures CanSubmit(responseCount, status) <==>
      responseCount.Some? && (status.Fresh? || status.Error? || status.Success?)
  {
    responseCount.Some? && !status.Pending?
  }

  /** With the count loaded, a submission disables the form exactly while its
      request is in flight, and every way it settles, failures included, enables
      it again; before the count is loaded the form is never enabled. */
  lemma SubmissionReenablesForm(p: FormParams, outcome: PostOutcome, count: int)
    ensures var trace := SubmitStatuses(p, outcome);
      && CanSubmit(Some(count), trace[|trace| - 1])
      && (forall i :: 0 <= i < |trace| - 1 ==> !CanSubmit(Some(count), trace[i]))
    ensures forall s :: !CanSubmit(None, s)
  {
  }

  /** The issues the last submission left in the status; none unless it is an error. */
  function SubmitIssues(status: Status): (issues: IssueSet)
    ensures status.Error? ==> issues == status.issues
    ensures !status.Error? ==> issues == map[]
  {
    if status.Error? then status.issues else map[]
  }

  /** The server's `not-unique` email issue still stands: the last submission was
      rejected with it, and the email field holds the email that was submitted. */
  predicate NotUniqueStands(status: Status, p: FormParams)
    ensures NotUniqueStands(status, p) ==> Email in SubmitIssues(status) && SubmitIssues(status)[Email] == NotUnique
    ensures NotUniqueStands(status, p) ==> status.params.Some? && status.params.value.email == p.email
  {
    && status.Error? && Email in status.issues && status.issues[Email] == NotUnique
    && status.params.Some? && status.params.value.email == p.email
  }

  /** Field `f` is reported with the same code by the last submission and by
      validating what the form holds now. */
  predicate ReportedByBoth(status: Status, p: FormParams, f: Field) {
    && f in SubmitIssues(status)
    && Validate(p).Some? && f in Validate(p).value
    && Validate(p).value[f] == SubmitIssues(status)[f]
  }

  /** `unresolvedIssues`: the issues shown next to the fields. */
  function UnresolvedIssues(status: Status, p: FormParams): (u: IssueSet)
    ensures Base !in u
    ensures (Email in u && u[Email] == NotUnique) <==> NotUniqueStands(status, p)
    ensures forall f :: f in u && !(f == Email && u[f] == NotUnique) ==>
      ReportedByBoth(status, p, f) && u[f] == SubmitIssues(status)[f]
    ensures forall f :: ReportedByBoth(status, p, f) ==> f in u && u[f] == SubmitIssues(status)[f]
  {
    ValidateCodes(p);
    var common := IssuesIntersection(Some(SubmitIssues(status)), Validate(p)).GetOr(map[]);
    // The server-side issue is never raised by `Validate`, so it never survives
    // the intersection and is put back explicitly.
    if NotUniqueStands(status, p) then common[Email := NotUnique] else common
  }

  /** Editing the email away from the one the server rejected hides the
      `not-unique` issue; holding that email again shows it again. */
  lemma NotUniqueFollowsEmail(submitted: FormParams, issues: IssueSet, current: FormParams)
    requires Email in issues && issues[Email] == NotUnique
    ensures var u := UnresolvedIssues(SettledStatus(submitted, Resolved("error", Some(issues))), current);
      (Email in u && u[Email] == NotUnique) <==> current.email == submitted.email
  {
  }

  /** A local issue the user has fixed stops being shown, even though the status
      still holds it; one not yet fixed keeps being shown. */
  lemma FixedIssueDisappears(p: FormParams, current: FormParams, f: Field)
    requires Validate(p).Some? && f in Validate(p).value
    ensures var u := UnresolvedIssues(ValidatedStatus(p), current);
      f in u <==> Validate(current).Some? && f in Validate(current).value
                   && Validate(current).value[f] == Validate(p).value[f]
  {
    ValidateCodes(p);
  }

  /** The button content: a spinner, or a label depending on the count. */
  datatype ButtonLabel = Spinner | VouchWithOthers(others: int) | VouchForThat

  function LabelFor(responseCount: Option<int>): (l: ButtonLabel)
    ensures l.Spinner? <==> responseCount.None?
    ensures l.VouchWithOthers? <==> responseCount.Some? && responseCount.value > 1
    ensures l.VouchWithOthers? ==> l.others == responseCount.value
  {
    match responseCount
    case None => Spinner
    case Some(n) => if n > 1 then VouchWithOthers(n) else VouchForThat
  }

  /** The count stored once the fetch resolves: the fetched integer, or zero when
      the fetch gave a falsy non-number (`None`: `null`, `undefined`). */
  function FetchedCount(count: Option<int>): (n: int)
    ensures count.Some? ==> n == count.value
    ensures count.None? ==> n == 0
  {
    count.GetOr(0)
  }

  /** Whatever the count fetch comes to, the spinner goes once it settles, and a
      missing count reads "I'll vouch for that". */
  lemma CountFallbackLabel(count: Option<int>)
    ensures LabelFor(Some(FetchedCount(count))) != Spinner
    ensures count.None? ==> LabelFor(Some(FetchedCount(count))) == VouchForThat
    ensures LabelFor(Some(0)) == VouchForThat && LabelFor(Some(1)) == VouchForThat
  {
  }

  /** The catalog `messages`: the codes that have a text, per key. */
  function Messages(f: Field): (codes: set<string>)
    ensures NotUnique in codes <==> f == Email
    ensures Required in codes <==> f != Base
    ensures Invalid in codes <==> f == Email
    ensures ErrorCode in codes <==> f == Base
    ensures codes <= {ErrorCode, Invalid, NotUnique, Required}
  {
    match f
    case Base => {ErrorCode}
    case Email => {Invalid, NotUnique, Required}
    case Name => {Required}
  }

  /** `messages[f][code]`: the code whose text is shown, or none for an unknown code. */
  function MessageShown(f: Field, code: Option<string>): (shown: Option<string>)
    ensures shown.Some? ==> shown == code && shown.value in Messages(f)
    ensures code.Some? && code.value in Messages(f) ==> shown == code
  {
    if code.Some? && code.value in Messages(f) then code else None
  }

  /** The message next to field `f`, from the unresolved issues. */
  function FieldMessage(u: IssueSet, f: Field): (shown: Option<string>)
    ensures shown.Some? <==> f in u && u[f] in Messages(f)
    ensures shown.Some? ==> shown.value == u[f]
  {
    MessageShown(f, if f in u then Some(u[f]) else None)
  }

  /** The form-level message, from the status's issues, not the unresolved ones. */
  function BaseMessage(status: Status): (shown: Option<string>)
    ensures shown.Some? <==> status.Error? && Base in status.issues && status.issues[Base] in Messages(Base)
    ensures shown.Some? ==> shown.value == status.issues[Base]
  {
    var issues := SubmitIssues(status);
    MessageShown(Base, if Base in issues then Some(issues[Base]) else None)
  }

  /** Every issue raised locally, and the server's `not-unique`, has a text;
      a failed call shows the generic message and a local failure does not. */
  lemma MessagesCovered(p: FormParams, submitted: FormParams)
    ensures Validate(p).Some? ==> forall f :: f in Validate(p).value ==>
      FieldMessage(Validate(p).value, f) == Some(Validate(p).value[f])
    ensures FieldMessage(map[Email := NotUnique], Email) == Some(NotUnique)
    ensures BaseMessage(SettledStatus(submitted, Threw)) == Some(ErrorCode)
    ensures BaseMessage(ValidatedStatus(p)) == None
  {
    ValidateCodes(p);
  }

  // ---------------------------------------------------------------------------
  // The controller object

  class Landing {
    var name: string
    var email: string
    var status: Status
    var responseCount: Option<int>
    /** `hasBeenUnmounted`, set by the mount effect's cleanup. */
    var unmounted: bool
    /** Every status set so far, oldest first. */
    ghost var history: seq<Status>

    /** `history` ends with the current status, and no status holds a
        `not-unique` email issue without the snapshot the render compares the
        email with (the render would dereference a missing `status.params`). */
    ghost predicate Valid()
      reads this
    {
      && history != [] && history[0] == Fresh && history[|history| - 1] == status
      && !(status.Error? && status.params.None? && Email in status.issues && status.issues[Email] == NotUnique)
    }

    /** `{ name, email }` as the current render sees it. */
    function Params(): (p: FormParams)
      reads this
      ensures p.name == name && p.email == email
    {
      FormParams(name, email)
    }

    /** Mounting: the initial state of every `useState`, the effect's flag. */
    constructor ()
      ensures Valid()
      ensures name == "" && email == "" && status == Fresh && responseCount == None && !unmounted
      ensures history == [Fresh]
    {
      name, email, status, responseCount, unmounted := "", "", Fresh, None, false;
      history := [Fresh];
    }

    method SetName(value: string)
      requires Valid()
      modifies this`name
      ensures Valid() && name == value
    {
      name := value;
    }

    method SetEmail(value: string)
      requires Valid()
      modifies this`email
      ensures Valid() && email == value
    {
      email := value;
    }

    /** The fetch resolved with `count`; ignored after unmount. */
    method ReceiveCount(count: Option<int>)
      requires Valid()
      modifies this`responseCount
      ensures Valid()
      ensures responseCount == if unmounted then old(responseCount) else Some(FetchedCount(count))
    {
      if !unmounted {
        responseCount := Some(FetchedCount(count));
      }
    }

    /** The fetch failed: the count is hidden as zero; ignored after unmount. */
    method CountFailed()
      requires Valid()
      modifies this`responseCount
      ensures Valid()
      ensures responseCount == if unmounted then old(responseCount) else Some(0)
    {
      if !unmounted {
        responseCount := Some(0);
      }
    }

    /** The effect's cleanup. */
    method Unmount()
      requires Valid()
      modifies this`unmounted
      ensures Valid() && unmounted
    {
      unmounted := true;
    }

    /** `handleSubmit` up to the `await`: validate, then either record the local
        issues or go `pending` and return the parameters to post. */
    method BeginSubmit() returns (request: Option<FormParams>)
      requires Valid()
      modifies this`status, this`history
      ensures Valid()
      ensures status == ValidatedStatus(Params())
      ensures request == if status.Pending? then Some(Params()) else None
      ensures history == old(history) + [status]
    {
      var issues := Validate(Params());
      if issues.Some? {
        status := Error(issues.value, None);
        history := history + [status];
        return None;
      }
      status := Pending;
      history := history + [status];
      request := Some(Params());
    }

    /** `handleSubmit` after the `await`: settle on what posting `submitted` came to. */
    method CompleteSubmit(submitted: FormParams, outcome: PostOutcome)
      requires Valid()
      modifies this`status, this`history
      ensures Valid()
      ensures status == SettledStatus(submitted, outcome)
      ensures history == old(history) + [status]
    {
      match outcome {
        case Resolved(replyStatus, issues) =>
          if replyStatus == "error" {
            status := Error(issues.GetOr(BaseError), Some(submitted));
          } else {
            status := Success;
          }
        case Threw =>
          status := Error(BaseError, None);
      }
      history := history + [status];
    }

    /** The whole of `handleSubmit` when nothing else happens during the `await`. */
    method HandleSubmit(outcome: PostOutcome) returns (request: Option<FormParams>)
      requires Valid()
      modifies this`status, this`history
      ensures Valid()
      ensures request == if Validate(Params()).None? then Some(Params()) else None
      ensures history == old(history) + SubmitStatuses(Params(), outcome)
      ensures status == history[|history| - 1]
    {
      request := BeginSubmit();
      if request.Some? {
        CompleteSubmit(request.value, outcome);
      }
    }
  }
}
