/** Clients of `Signup.Landing` that walk through whole sessions, as a page
    user would, using only the contracts of its methods. */
module Scenarios {
  import opened Wrappers
  import opened Validation
  import opened Signup

  /** Submitting the untouched form reports both fields, never goes
      `pending` and posts nothing; a failed count fetch leaves no spinner. */
  method SubmitUntouchedForm(outcome: PostOutcome)
  {
    var page := new Landing();
    page.CountFailed();
    assert LabelFor(page.responseCount) == VouchForThat;
    var request := page.HandleSubmit(outcome);
    SubmitEmptyForm(outcome);
    assert request == None;
    assert page.status == Error(map[Name := Required, Email := Required], None);
    assert page.history == [Fresh, page.status];
    assert Pending !in page.history;
    assert CanSubmit(page.responseCount, page.status);
  }

  /** A clean submission the server accepts ends in `success`, through `pending`. */
  method SubmitAccepted()
  {
    var page := new Landing();
    page.ReceiveCount(Some(41));
    assert LabelFor(page.responseCount) == VouchWithOthers(41);
    page.SetName("A");
    page.SetEmail("a@b.co");
    var request := page.BeginSubmit();
    ValidateWellFormedEmail();
    assert request == Some(FormParams("A", "a@b.co"));
    assert !CanSubmit(page.responseCount, page.status);
    page.CompleteSubmit(request.value, Resolved("ok", None));
    assert page.status == Success;
    assert page.history == [Fresh, Pending, Success];
  }

  /** The server says the email is taken: the issue shows while the field holds
      that email, goes when it is edited, and shows again when the same email is
      typed back, without another submission. */
  method SubmitTakenEmail()
  {
    var page := new Landing();
    page.SetName("A");
    page.SetEmail("a@b.co");
    ValidateWellFormedEmail();
    var request := page.HandleSubmit(Resolved("error", Some(map[Email := NotUnique])));
    assert request == Some(FormParams("A", "a@b.co"));
    assert page.status == Error(map[Email := NotUnique], Some(FormParams("A", "a@b.co")));
    var u := UnresolvedIssues(page.status, page.Params());
    assert Email in u && u[Email] == NotUnique;

    page.SetEmail("c@d.co");
    u := UnresolvedIssues(page.status, page.Params());
    ValidateCodes(page.Params());
    assert Email !in u;

    page.SetEmail("a@b.co");
    u := UnresolvedIssues(page.status, page.Params());
    assert Email in u && u[Email] == NotUnique;
  }

  /** A count that arrives after unmount is dropped. */
  method CountAfterUnmount()
  {
    var page := new Landing();
    page.Unmount();
    page.ReceiveCount(Some(7));
    assert page.responseCount == None;
    assert LabelFor(page.responseCount) == Spinner;
  }
}
