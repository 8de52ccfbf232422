/** The change-password form of the profile page (`app/profile/page.tsx`):
    the ordered validation of the three fields, the form reset after a
    successful change, and the four requirement indicators drawn under the
    form. Lengths are counted in characters. */
module Profile {
  import opened Common

  const FieldsRequired := "Semua field harus diisi"
  const NewTooShort := "Password baru minimal 6 karakter"
  const NewMismatch := "Password baru dan konfirmasi tidak cocok"
  const Changed := "Password berhasil diubah!"
  const MinLength := 6

  /** The checks of `handleChangePassword`, in order; the first one that
      fails gives the message, and `None` lets the request go out. Each
      message appears exactly when its rule is the first to fail. */
  function ValidateChange(current: string, newPassword: string, confirm: string): (r: Option<string>)
    ensures r == Some(FieldsRequired) <==> current == "" || newPassword == "" || confirm == ""
    ensures r == Some(NewTooShort) <==>
              current != "" && newPassword != "" && confirm != "" && |newPassword| < MinLength
    ensures r == Some(NewMismatch) <==>
              current != "" && newPassword != "" && confirm != "" && |newPassword| >= MinLength &&
              newPassword != confirm
    ensures r.None? <==>
              current != "" && newPassword != "" && confirm != "" && |newPassword| >= MinLength &&
              newPassword == confirm
  {
    if current == "" || newPassword == "" || confirm == "" then Some(FieldsRequired)
    else if |newPassword| < MinLength then Some(NewTooShort)
    else if newPassword != confirm then Some(NewMismatch)
    else None
  }

  /** "At least 6 characters". */
  predicate HasMinLength(p: string)
    ensures HasMinLength(p) ==> p != []
  {
    |p| >= MinLength
  }

  predicate IsAsciiLetter(c: char)
  {
    'a' <= c <= 'z' || 'A' <= c <= 'Z'
  }

  /** "Letters": `/[a-zA-Z]/.test(p)`. */
  predicate HasLetter(p: string)
    ensures HasLetter(p) <==> exists c :: c in p && IsAsciiLetter(c)
  {
    exists i :: 0 <= i < |p| && IsAsciiLetter(p[i])
  }

  predicate IsDecimalDigit(c: char)
  {
    '0' <= c <= '9'
  }

  /** "Numbers": `/\d/.test(p)`. */
  predicate HasDigit(p: string)
    ensures HasDigit(p) <==> exists c :: c in p && IsDecimalDigit(c)
  {
    exists i :: 0 <= i < |p| && IsDecimalDigit(p[i])
  }

  /** "Passwords match": equal and not empty. */
  predicate PasswordsMatch(p: string, confirm: string)
    ensures PasswordsMatch(p, confirm) ==> confirm != [] && (HasMinLength(p) <==> HasMinLength(confirm))
  {
    p == confirm && |p| > 0
  }

  /** The form passes validation exactly when a current password is given
      and the length and match indicators are both green. */
  lemma ValidIffIndicators(current: string, newPassword: string, confirm: string)
    ensures ValidateChange(current, newPassword, confirm).None? <==>
              current != "" && HasMinLength(newPassword) && PasswordsMatch(newPassword, confirm)
  {
  }

  /** Typing more characters never turns the length, letter or number
      indicator off. */
  lemma IndicatorsStayOn(p: string, more: string)
    ensures HasMinLength(p) ==> HasMinLength(p + more)
    ensures HasLetter(p) ==> HasLetter(p + more)
    ensures HasDigit(p) ==> HasDigit(p + more)
  {
    if HasLetter(p) {
      var i :| 0 <= i < |p| && IsAsciiLetter(p[i]);
      assert (p + more)[i] == p[i];
    }
    if HasDigit(p) {
      var i :| 0 <= i < |p| && IsDecimalDigit(p[i]);
      assert (p + more)[i] == p[i];
    }
  }

  /** The letter and number indicators are advice only: any password of
      at least six characters that matches its confirmation passes, so
      six letters pass, and so do six digits. */
  lemma LettersAndDigitsNotEnforced(current: string, p: string)
    requires current != "" && HasMinLength(p)
    ensures ValidateChange(current, p, p).None?
    ensures ValidateChange(current, "abcdef", "abcdef").None? && !HasDigit("abcdef")
    ensures ValidateChange(current, "123456", "123456").None? && !HasLetter("123456")
  {
    assert forall i :: 0 <= i < 6 ==> !IsDecimalDigit("abcdef"[i]);
    assert forall i :: 0 <= i < 6 ==> !IsAsciiLetter("123456"[i]);
  }

  /** The body of the change-password request. */
  datatype PasswordChange = PasswordChange(currentPassword: string, newPassword: string)

  datatype ProfileState = ProfileState(
    error: string, success: string, changingPassword: bool,
    currentPassword: string, newPassword: string, confirmPassword: string)

  class ProfileForm {
    var error: string
    var success: string
    var changingPassword: bool
    var currentPassword: string
    var newPassword: string
    var confirmPassword: string

    function State(): ProfileState
      reads this
    {
      ProfileState(error, success, changingPassword, currentPassword, newPassword, confirmPassword)
    }

    constructor()
      ensures State() == ProfileState("", "", false, "", "", "")
    {
      error, success, changingPassword := "", "", false;
      currentPassword, newPassword, confirmPassword := "", "", "";
    }

    /** `handleChangePassword`: both messages are cleared first. A failed
        check shows its message and sends nothing. Otherwise the current
        and new password are sent; success shows the confirmation and
        empties all three fields, any failure shows the server's message
        (or the default) and keeps the fields. The busy flag ends false. */
    method ChangePassword(reply: Reply) returns (request: Option<PasswordChange>)
      modifies this
      ensures var v := ValidateChange(old(currentPassword), old(newPassword), old(confirmPassword));
              v.Some? ==> request.None? && State() == old(State()).(error := v.value, success := "")
      ensures var v := ValidateChange(old(currentPassword), old(newPassword), old(confirmPassword));
              v.None? ==> request == Some(PasswordChange(old(currentPassword), old(newPassword)))
      ensures var v := ValidateChange(old(currentPassword), old(newPassword), old(confirmPassword));
              v.None? && reply.Ok? ==>
                State() == ProfileState("", Changed, false, "", "", "")
      ensures var v := ValidateChange(old(currentPassword), old(newPassword), old(confirmPassword));
              v.None? && !reply.Ok? ==>
                State() == old(State()).(error := CaughtMessage(reply, "Failed to change password", "An error occurred"),
                                         success := "", changingPassword := false)
    {
      error := "";
      success := "";
      var invalid := ValidateChange(currentPassword, newPassword, confirmPassword);
      if invalid.Some? {
        error := invalid.value;
        return None;
      }
      changingPassword := true;
      request := Some(PasswordChange(currentPassword, newPassword));
      if reply.Ok? {
        success := Changed;
        currentPassword, newPassword, confirmPassword := "", "", "";
      } else {
        error := CaughtMessage(reply, "Failed to change password", "An error occurred");
      }
      changingPassword := false;
    }
  }
}
