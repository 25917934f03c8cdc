/**
 * Client-side validation of the signup form (src/App.js, `validate` and
 * `issuesIntersection`).
 *
 * An issue set maps a form field to an issue code.  "No issues" is `None`,
 * never a present-but-empty map: `Validate` guarantees that.  Issue codes are
 * strings, because the server may report codes the client does not know.
 */
module Validation {
  import opened Wrappers

  /** The parameters the form submits. */
  datatype FormParams = FormParams(name: string, email: string)

  /** The keys an issue set may carry: the two fields and the form as a whole. */
  datatype Field = Name | Email | Base

  type IssueSet = map<Field, string>

  const Required: string := "required"
  const Invalid: string := "invalid"
  const NotUnique: string := "not-unique"
  const ErrorCode: string := "error"

  // ---------------------------------------------------------------------------
  // The email pattern `/.+@.+/`, tested with `RegExp.prototype.test`

  /** The characters JavaScript's `.` does not match (without the `s` flag). */
  predicate LineTerminator(c: char) {
    c == '\n' || c == '\r' || c == '\U{2028}' || c == '\U{2029}'
  }

  /** `s[i..j]` is a non-empty run that `.+` matches. */
  predicate DotRun(s: string, i: int, j: int) {
    0 <= i < j <= |s| && forall k :: i <= k < j ==> !LineTerminator(s[k])
  }

  /** `s[a..b]` matches `.+@.+` with the literal `@` at position `m`. */
  predicate MatchAt(s: string, a: int, m: int, b: int) {
    DotRun(s, a, m) && m < |s| && s[m] == '@' && DotRun(s, m + 1, b)
  }

  /** The email pattern accepts `s`: since it is unanchored, some substring of `s`
      is one or more characters, an `@`, and one or more characters again. */
  predicate EmailPatternMatches(s: string)
    ensures EmailPatternMatches(s) ==> |s| >= 3 && '@' in s[1..|s| - 1]
  {
    exists a, m, b :: 0 <= a < |s| && 0 <= m < |s| && 0 <= b <= |s| && MatchAt(s, a, m, b)
  }

  /** The plain reading of the pattern: some `@` has a character other than a
      line terminator immediately before it and immediately after it. */
  ghost predicate HasQualifyingAt(s: string) {
    exists i :: 0 < i < |s| - 1 && s[i] == '@' && !LineTerminator(s[i - 1]) && !LineTerminator(s[i + 1])
  }

  lemma EmailPatternCharacterization(s: string)
    ensures EmailPatternMatches(s) <==> HasQualifyingAt(s)
  {
    if EmailPatternMatches(s) {
      var a, m, b :| 0 <= a < |s| && 0 <= m < |s| && 0 <= b <= |s| && MatchAt(s, a, m, b);
      assert !LineTerminator(s[m - 1]);
      assert !LineTerminator(s[m + 1]);
      assert 0 < m < |s| - 1 && s[m] == '@';
    }
    if HasQualifyingAt(s) {
      var i :| 0 < i < |s| - 1 && s[i] == '@' && !LineTerminator(s[i - 1]) && !LineTerminator(s[i + 1]);
      assert MatchAt(s, i - 1, i, i + 2);
    }
  }

  // ---------------------------------------------------------------------------
  // validate

  /** The local issues of a form, or none.  Only the empty string counts as missing
      (a string of blanks is truthy); the email is checked against the pattern
      only when it is present. */
  function Validate(p: FormParams): (r: Option<IssueSet>)
    ensures r.None? <==> p.name != "" && p.email != "" && EmailPatternMatches(p.email)
    ensures r.Some? ==> r.value != map[] && r.value.Keys <= {Name, Email}
    ensures r.Some? ==> (Name in r.value <==> p.name == "")
    ensures r.Some? && Name in r.value ==> r.value[Name] == Required
    ensures r.Some? ==> (Email in r.value <==> p.email == "" || !EmailPatternMatches(p.email))
    ensures r.Some? && Email in r.value ==> r.value[Email] == (if p.email == "" then Required else Invalid)
  {
    var none: IssueSet := map[];
    var nameChecked := if p.name == "" then none[Name := Required] else none;
    var issues :=
      if p.email == "" then nameChecked[Email := Required]
      else if !EmailPatternMatches(p.email) then nameChecked[Email := Invalid]
      else nameChecked;
    if issues != map[] then Some(issues)
    else assert Name !in issues && Email !in issues; None
  }

  /** The clean case in the plain reading of the pattern. */
  lemma ValidateClean(p: FormParams)
    ensures Validate(p).None? <==> p.name != "" && p.email != "" && HasQualifyingAt(p.email)
  {
    EmailPatternCharacterization(p.email);
  }

  /** The codes `validate` can produce: `name` only ever gets `required`, `email`
      gets `required` or `invalid`, and never `not-unique`. */
  lemma ValidateCodes(p: FormParams)
    ensures Validate(p).Some? ==> forall f :: f in Validate(p).value ==> Validate(p).value[f] in {Required, Invalid}
    ensures Validate(p).Some? && Name in Validate(p).value ==> Validate(p).value[Name] != Invalid
    ensures Validate(p).Some? ==> Base !in Validate(p).value
  {
  }

  lemma ValidateEmptyForm()
    ensures Validate(FormParams("", "")) == Some(map[Name := Required, Email := Required])
  {
  }

  lemma ValidateMalformedEmail()
    ensures Validate(FormParams("A", "not-an-email")) == Some(map[Email := Invalid])
  {
    EmailPatternCharacterization("not-an-email");
  }

  lemma ValidateWellFormedEmail()
    ensures Validate(FormParams("A", "a@b.co")) == None
  {
    assert MatchAt("a@b.co", 0, 1, 6);
  }

  /** A name made of blanks is present: it is not reported. */
  lemma ValidateBlankName()
    ensures Validate(FormParams(" ", "a@b")) == None
  {
    assert MatchAt("a@b", 0, 1, 3);
  }

  /** A line break next to the `@` is not matched by `.`. */
  lemma ValidateLineBreakAroundAt()
    ensures Validate(FormParams("A", "a\n@b")) == Some(map[Email := Invalid])
  {
    EmailPatternCharacterization("a\n@b");
  }

  // ---------------------------------------------------------------------------
  // issuesIntersection

  /** `issuesIntersection(x, y)`: the entries of `y` on which `x` agrees.
      Absent when either input is absent; otherwise present, possibly empty. */
  function IssuesIntersection(x: Option<IssueSet>, y: Option<IssueSet>): (r: Option<IssueSet>)
    ensures r.None? <==> x.None? || y.None?
    ensures r.Some? ==> forall k :: k in r.value <==> k in x.value && k in y.value && x.value[k] == y.value[k]
    ensures r.Some? ==> forall k :: k in r.value ==> r.value[k] == x.value[k] && r.value[k] == y.value[k]
  {
    if y.None? || x.None? then None
    else Some(map k | k in y.value && k in x.value && x.value[k] == y.value[k] :: x.value[k])
  }

  /** The loop of src/App.js over `Object.keys(y)`, building the intersection
      one key at a time; the order the keys are visited in does not matter. */
  method ComputeIssuesIntersection(x: Option<IssueSet>, y: Option<IssueSet>) returns (r: Option<IssueSet>)
    ensures r == IssuesIntersection(x, y)
  {
    if y.None? || x.None? {
      return None;
    }
    var keys := y.value.Keys;
    var intersection: IssueSet := map[];
    var remaining := keys;
    while remaining != {}
      invariant remaining <= keys
      invariant intersection.Keys <= keys - remaining
      invariant forall k :: k in keys - remaining ==>
        (k in intersection <==> k in x.value && x.value[k] == y.value[k])
      invariant forall k :: k in intersection ==> intersection[k] == x.value[k]
      decreases remaining
    {
      var key :| key in remaining;
      if key in x.value && x.value[key] == y.value[key] {
        intersection := intersection[key := x.value[key]];
      }
      remaining := remaining - {key};
    }
    assert intersection == IssuesIntersection(x, y).value;
    r := Some(intersection);
  }

  lemma IntersectionCommutes(x: Option<IssueSet>, y: Option<IssueSet>)
    ensures IssuesIntersection(x, y) == IssuesIntersection(y, x)
  {
    if x.Some? && y.Some? {
      assert IssuesIntersection(x, y).value == IssuesIntersection(y, x).value;
    }
  }

  lemma IntersectionIdempotent(m: IssueSet)
    ensures IssuesIntersection(Some(m), Some(m)) == Some(m)
  {
    assert IssuesIntersection(Some(m), Some(m)).value == m;
  }

  /** Two present issue sets that disagree everywhere intersect to a present, empty map. */
  lemma IntersectionMayBeEmpty()
    ensures IssuesIntersection(Some(map[Email := NotUnique]), Some(map[Email := Invalid])) == Some(map[])
  {
    var r := IssuesIntersection(Some(map[Email := NotUnique]), Some(map[Email := Invalid]));
    assert Email !in r.value;
    assert r.value == map[];
  }

  lemma IntersectionExamples()
    ensures IssuesIntersection(Some(map[Email := Invalid]), Some(map[Email := Invalid, Name := Required]))
         == Some(map[Email := Invalid])
    ensures IssuesIntersection(None, Some(map[Email := Invalid])) == None
  {
    var r := IssuesIntersection(Some(map[Email := Invalid]), Some(map[Email := Invalid, Name := Required]));
    assert r.value == map[Email := Invalid];
  }
}
