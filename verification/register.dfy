/** The sign-up form (`app/register/page.tsx`): the two password checks,
    in their order, and the error / busy state of `handleSubmit`, split at
    its `await`: `Submit` runs up to the request, `Complete` runs when the
    answer has arrived. */
module Register {
  import opened Common
  import Profile

  const Mismatch := "Password tidak cocok. Coba cek lagi ya!"
  const TooShort := "Password minimal 6 karakter ya!"
  const MinLength := 6

  /** The checks of `handleSubmit`: a mismatch is reported first, then a
      short password; `None` lets the request go out. */
  function ValidateRegister(password: string, confirm: string): (r: Option<string>)
    ensures r == Some(Mismatch) <==> password != confirm
    ensures r == Some(TooShort) <==> password == confirm && |password| < MinLength
    ensures r.None? <==> password == confirm && |password| >= MinLength
  {
    if password != confirm then Some(Mismatch)
    else if |password| < MinLength then Some(TooShort)
    else None
  }

  /** The two forms check in opposite orders: a short password that does
      not match its confirmation is reported as a mismatch here and as too
      short on the profile page. */
  lemma OrderDiffersFromProfile(current: string, password: string, confirm: string)
    requires current != "" && password != "" && confirm != ""
    requires password != confirm && |password| < MinLength
    ensures ValidateRegister(password, confirm) == Some(Mismatch)
    ensures Profile.ValidateChange(current, password, confirm) == Some(Profile.NewTooShort)
  {
  }

  /** The body of the sign-up request. */
  datatype Registration = Registration(name: string, username: string, email: string, password: string)

  datatype RegisterState = RegisterState(
    name: string, username: string, email: string, password: string, confirmPassword: string,
    isLoading: bool, error: string)

  class RegisterForm {
    var name: string
    var username: string
    var email: string
    var password: string
    var confirmPassword: string
    var isLoading: bool
    var error: string

    function State(): RegisterState
      reads this
    {
      RegisterState(name, username, email, password, confirmPassword, isLoading, error)
    }

    constructor()
      ensures State() == RegisterState("", "", "", "", "", false, "")
    {
      name, username, email, password, confirmPassword := "", "", "", "", "";
      isLoading, error := false, "";
    }

    /** `handleSubmit` up to the request: the error is cleared; a failed
        check shows its message and sends nothing; otherwise the form turns
        busy and the four fields are sent. */
    method Submit() returns (request: Option<Registration>)
      modifies this
      ensures var v := ValidateRegister(old(password), old(confirmPassword));
              v.Some? ==> request.None? && State() == old(State()).(error := v.value)
      ensures var v := ValidateRegister(old(password), old(confirmPassword));
              v.None? ==> request == Some(Registration(old(name), old(username), old(email), old(password))) &&
                          State() == old(State()).(error := "", isLoading := true)
    {
      error := "";
      var invalid := ValidateRegister(password, confirmPassword);
      if invalid.Some? {
        error := invalid.value;
        return None;
      }
      isLoading := true;
      request := Some(Registration(name, username, email, password));
    }

    /** The rest of `handleSubmit` once the answer is in: a failure shows
        the server's message or the default, and the form stops being busy
        either way (storing the token and leaving the page are not part of
        this model). */
    method Complete(reply: Reply)
      modifies this
      ensures reply.Ok? ==> State() == old(State()).(isLoading := false)
      ensures !reply.Ok? ==>
                State() == old(State()).(error := CaughtMessage(reply, "Registration failed", "Pendaftaran gagal. Coba lagi ya!"),
                                         isLoading := false)
    {
      if !reply.Ok? {
        error := CaughtMessage(reply, "Registration failed", "Pendaftaran gagal. Coba lagi ya!");
      }
      isLoading := false;
    }
  }
}
