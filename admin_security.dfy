/**
 * The admin's change-password form: the per-field rules checked before
 * submission, the submit handler's own checks in their fixed order, the
 * request it sends, and the reset after the server accepts.
 *
 * The server's answer is an input: `None` when the request throws,
 * `Some(success)` otherwise.
 */
module AdminSecurity {
  import opened Wrappers
  import opened Text

  datatype PasswordForm = PasswordForm(currentPassword: string, newPassword: string, confirmPassword: string)

  const EmptyForm := PasswordForm("", "", "")

  /** The error message shown under each field, if any. */
  datatype FieldErrors = FieldErrors(
    currentPassword: Option<string>, newPassword: Option<string>, confirmPassword: Option<string>)

  const NoErrors := FieldErrors(None, None, None)

  const MinLength := 8

  /**
   * The field rules, checked before the submit handler runs: the current
   * password is required; the new one is required and at least eight long;
   * the confirmation is required and equal to the new one.
   */
  function RuleErrors(f: PasswordForm): (r: FieldErrors)
    ensures r.currentPassword.None? <==> f.currentPassword != ""
    ensures r.newPassword.None? <==> Utf16Length(f.newPassword) >= MinLength
    ensures r.confirmPassword.None? <==> f.confirmPassword != "" && f.confirmPassword == f.newPassword
  {
    FieldErrors(
      if f.currentPassword == "" then Some("Current password is required") else None,
      if f.newPassword == "" then Some("New password is required")
      else if Utf16Length(f.newPassword) < MinLength then Some("Password must be at least 8 characters")
      else None,
      if f.confirmPassword == "" then Some("Please confirm your new password")
      else if f.confirmPassword != f.newPassword then Some("Passwords do not match")
      else None)
  }

  /** The outcome of the submit handler's own checks. */
  datatype Check = TooShort | Mismatch | Reused | Accepted

  /** `onSubmit`'s early returns: short, then mismatch, then reuse; only the first is reported. */
  function SubmitCheck(f: PasswordForm): Check
  {
    if Utf16Length(f.newPassword) < MinLength then TooShort
    else if f.newPassword != f.confirmPassword then Mismatch
    else if f.currentPassword == f.newPassword then Reused
    else Accepted
  }

  /** A request is made iff the new password is long enough, confirmed, and new. */
  lemma SubmitCheckAccepts(f: PasswordForm)
    ensures SubmitCheck(f) == Accepted <==>
      Utf16Length(f.newPassword) >= 8 && f.newPassword == f.confirmPassword && f.currentPassword != f.newPassword
  {
  }

  /** Each check is reported exactly when the ones before it pass and it fails. */
  lemma SubmitCheckOrder(f: PasswordForm)
    ensures SubmitCheck(f) == TooShort <==> Utf16Length(f.newPassword) < 8
    ensures SubmitCheck(f) == Mismatch <==> Utf16Length(f.newPassword) >= 8 && f.newPassword != f.confirmPassword
    ensures SubmitCheck(f) == Reused <==>
      Utf16Length(f.newPassword) >= 8 && f.newPassword == f.confirmPassword && f.currentPassword == f.newPassword
  {
  }

  /**
   * Once the field rules pass, the handler's length and mismatch checks can
   * no longer fail: only reuse can stop the request.
   */
  lemma RulesPreempt(f: PasswordForm)
    requires RuleErrors(f) == NoErrors
    ensures SubmitCheck(f) == Accepted || SubmitCheck(f) == Reused
    ensures SubmitCheck(f) == Reused <==> f.currentPassword == f.newPassword
  {
  }

  /** Four characters beyond U+FFFF make eight code units, enough for both length checks. */
  lemma AstralPassword(current: string)
    requires current != "\U{1F600}\U{1F600}\U{1F600}\U{1F600}"
    ensures var p := "\U{1F600}\U{1F600}\U{1F600}\U{1F600}";
      && |p| == 4
      && RuleErrors(PasswordForm(current, p, p)).newPassword.None?
      && SubmitCheck(PasswordForm(current, p, p)) == Accepted
  {
    var p := "\U{1F600}\U{1F600}\U{1F600}\U{1F600}";
    assert Utf16Length(p[3..]) == 2 + Utf16Length([]);
    assert Utf16Length(p[2..]) == 2 + Utf16Length(p[3..]);
    assert Utf16Length(p[1..]) == 2 + Utf16Length(p[2..]);
  }

  datatype ChangeRequest = ChangeRequest(oldPassword: string, newPassword: string)

  /** The body sent to the server. */
  function RequestOf(f: PasswordForm): ChangeRequest
  {
    ChangeRequest(f.currentPassword, f.newPassword)
  }

  /** The confirmation is never sent: forms that differ only in it send the same request. */
  lemma RequestIgnoresConfirmation(f: PasswordForm, confirm: string)
    ensures RequestOf(f.(confirmPassword := confirm)) == RequestOf(f)
    ensures RequestOf(f).oldPassword == f.currentPassword && RequestOf(f).newPassword == f.newPassword
  {
  }

  datatype Field = Current | New | Confirm

  /** The state of the security form. */
  class SecurityForm {
    var values: PasswordForm
    var errors: FieldErrors
    var showCurrent: bool
    var showNew: bool
    var showConfirm: bool

    constructor ()
      ensures values == EmptyForm && errors == NoErrors
      ensures !showCurrent && !showNew && !showConfirm
    {
      values, errors := EmptyForm, NoErrors;
      showCurrent, showNew, showConfirm := false, false, false;
    }

    /** The eye button of one field flips whether that field is shown in clear. */
    method ToggleShow(field: Field)
      modifies this`showCurrent, this`showNew, this`showConfirm
      ensures showCurrent == (if field == Current then !old(showCurrent) else old(showCurrent))
      ensures showNew == (if field == New then !old(showNew) else old(showNew))
      ensures showConfirm == (if field == Confirm then !old(showConfirm) else old(showConfirm))
    {
      match field {
        case Current => showCurrent := !showCurrent;
        case New => showNew := !showNew;
        case Confirm => showConfirm := !showConfirm;
      }
    }

    /**
     * A submit: failing rules are shown and stop it; then the handler's
     * checks, of which only reuse can still fail; then the request, after
     * which a successful answer resets the form.
     */
    method Submit(answer: Option<bool>) returns (sent: Option<ChangeRequest>)
      modifies this`values, this`errors
      ensures sent.Some? <==> RuleErrors(old(values)) == NoErrors && SubmitCheck(old(values)) == Accepted
      ensures sent.Some? ==> sent.value == RequestOf(old(values))
      ensures RuleErrors(old(values)) != NoErrors ==> errors == RuleErrors(old(values))
      ensures RuleErrors(old(values)) == NoErrors && answer != Some(true) ==> errors == NoErrors
      ensures sent.Some? && answer == Some(true) ==> values == EmptyForm && errors == NoErrors
      ensures !(sent.Some? && answer == Some(true)) ==> values == old(values)
    {
      var ruleErrors := RuleErrors(values);
      errors := ruleErrors;
      if ruleErrors != NoErrors {
        return None;
      }
      var check := SubmitCheck(values);
      // the handler's short and mismatch branches are unreachable here
      RulesPreempt(values);
      if check != Accepted {
        return None;
      }
      sent := Some(RequestOf(values));
      if answer == Some(true) {
        values, errors := EmptyForm, NoErrors;
      }
    }
  }
}
