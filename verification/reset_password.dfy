/** The reset-password form's submit handler: clear the error, check the two
    passwords, then send the reset request and record how it went. The
    request's outcome enters as a parameter; the redirect timer after
    success is not modelled. */
module ResetPassword {
  import opened Common

  const Mismatch := "Passwords do not match"
  const TooShort := "Password must be at least 6 characters"
  const ResetFailed := "Failed to reset password"
  const MinLength := 6

  datatype FormState = FormState(password: string, confirmPassword: string, loading: bool, error: string, success: bool)

  /** The body of the reset request. */
  datatype ResetRequest = ResetRequest(token: string, newPassword: string)

  /** How the request ended: success, or a failure with the error's message
      (possibly empty). */
  datatype RequestResult = Succeeded | Failed(message: string)

  /** JavaScript's `length` of a text: its UTF-16 code units, two for each
      character beyond the Basic Multilingual Plane. */
  function Utf16Length(s: string): (n: nat)
    ensures |s| <= n <= 2 * |s|
  {
    if |s| == 0 then 0 else (if s[0] as int > 0xFFFF then 2 else 1) + Utf16Length(s[1..])
  }

  /** A text within the Basic Multilingual Plane has one code unit per
      character. */
  lemma {:induction false} Utf16LengthBmp(s: string)
    requires forall i :: 0 <= i < |s| ==> s[i] as int <= 0xFFFF
    ensures Utf16Length(s) == |s|
    decreases |s|
  {
    if |s| > 0 {
      Utf16LengthBmp(s[1..]);
    }
  }

  /** `handleSubmit`: the final form state and the request sent, if any. */
  function HandleSubmit(s: FormState, token: string, result: RequestResult): (r: (FormState, Option<ResetRequest>))
    ensures r.1.Some? <==> s.password == s.confirmPassword && Utf16Length(s.password) >= MinLength
    ensures r.1.Some? ==> r.1.value == ResetRequest(token, s.password)
    ensures s.password != s.confirmPassword ==> r.0 == s.(error := Mismatch)
    ensures s.password == s.confirmPassword && Utf16Length(s.password) < MinLength ==> r.0 == s.(error := TooShort)
    ensures r.1.Some? ==> !r.0.loading
    ensures r.1.Some? ==> (r.0.success <==> s.success || result.Succeeded?)
    ensures r.1.Some? && result.Succeeded? ==> r.0.error == ""
    ensures r.1.Some? && result.Failed? ==>
      r.0.error == (if result.message != "" then result.message else ResetFailed)
    ensures r.0.password == s.password && r.0.confirmPassword == s.confirmPassword
  {
    var cleared := s.(error := "");
    if s.password != s.confirmPassword then (cleared.(error := Mismatch), None)
    else if Utf16Length(s.password) < MinLength then (cleared.(error := TooShort), None)
    else
      var sending := cleared.(loading := true);
      var done := match result
        case Succeeded => sending.(success := true)
        case Failed(m) => sending.(error := if m != "" then m else ResetFailed);
      (done.(loading := false), Some(ResetRequest(token, s.password)))
  }

  /** Three characters beyond the Basic Multilingual Plane make a length
      of 6, so such a password is sent. */
  lemma AstralPasswordAccepted(s: FormState, token: string, result: RequestResult)
    requires s.password == s.confirmPassword == "\U{1F600}\U{1F600}\U{1F600}"
    ensures HandleSubmit(s, token, result).1 == Some(ResetRequest(token, s.password))
  {
    var p := s.password;
    assert p[1..] == "\U{1F600}\U{1F600}" && p[1..][1..] == "\U{1F600}" && p[1..][1..][1..] == "";
    assert Utf16Length(p[1..][1..]) == 2;
    assert Utf16Length(p[1..]) == 4;
    assert Utf16Length(p) == 6;
  }

  /** A stale error never survives a submit: the shown error is always the
      one this submit produced, or none. */
  lemma ErrorIsFresh(s: FormState, token: string, result: RequestResult)
    ensures var e := HandleSubmit(s, token, result).0.error;
      e == "" || e == Mismatch || e == TooShort || e == ResetFailed || (result.Failed? && e == result.message)
  {
  }
}
