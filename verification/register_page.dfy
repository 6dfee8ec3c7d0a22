/** The sign-up page: the four-rule password policy, the confirmation check, the
    submit gate in front of `register`, and the submit button's disabled state. */
module RegisterPage {
  import opened Text
  import Auth

  /** `validatePassword`: one flag per rule. */
  datatype PasswordChecks = PasswordChecks(length: bool, uppercase: bool, lowercase: bool, number: bool)

  /** Some character of `s` satisfies `p` (the page's `/[…]/.test(s)`). */
  predicate HasChar(s: string, p: char -> bool)
    decreases |s|
  {
    |s| > 0 && (p(s[0]) || HasChar(s[1..], p))
  }

  lemma {:induction false} HasCharIff(s: string, p: char -> bool)
    ensures HasChar(s, p) <==> exists i :: 0 <= i < |s| && p(s[i])
    decreases |s|
  {
    if |s| > 0 {
      HasCharIff(s[1..], p);
      if exists i :: 0 <= i < |s| && p(s[i]) {
        var i :| 0 <= i < |s| && p(s[i]);
        if i > 0 {
          assert s[1..][i - 1] == s[i];
        }
      }
      if HasChar(s[1..], p) {
        var i :| 0 <= i < |s[1..]| && p(s[1..][i]);
        assert s[i + 1] == s[1..][i];
      }
    }
  }

  /** Each rule holds exactly when the password has the property it names. */
  function ValidatePassword(password: string): (v: PasswordChecks)
    ensures v.length <==> |password| >= 8
    ensures v.uppercase <==> exists i :: 0 <= i < |password| && IsUpper(password[i])
    ensures v.lowercase <==> exists i :: 0 <= i < |password| && IsLower(password[i])
    ensures v.number <==> exists i :: 0 <= i < |password| && IsDigit(password[i])
  {
    HasCharIff(password, IsUpper);
    HasCharIff(password, IsLower);
    HasCharIff(password, IsDigit);
    PasswordChecks(|password| >= 8, HasChar(password, IsUpper), HasChar(password, IsLower),
                   HasChar(password, IsDigit))
  }

  /** `isPasswordValid`: every rule of `validatePassword` holds. */
  predicate IsPasswordValid(password: string)
  {
    var v := ValidatePassword(password);
    v.length && v.uppercase && v.lowercase && v.number
  }

  /** The password is accepted exactly when it is long enough and has an
      upper-case letter, a lower-case letter and a digit. */
  lemma PasswordValidIff(password: string)
    ensures IsPasswordValid(password) <==>
      && |password| >= 8
      && (exists i :: 0 <= i < |password| && IsUpper(password[i]))
      && (exists i :: 0 <= i < |password| && IsLower(password[i]))
      && (exists i :: 0 <= i < |password| && IsDigit(password[i]))
  {
  }

  /** `passwordsMatch`: the confirmation equals a non-empty password. */
  predicate PasswordsMatch(password: string, confirm: string)
  {
    password == confirm && |password| > 0
  }

  /** The page's form fields. */
  datatype Form = Form(name: string, email: string, password: string, confirm: string)

  /** What a submit did: whether `register` was called and whether the page then
      navigates to the dashboard, with the provider state afterwards. */
  datatype Submitted = Submitted(registerCalled: bool, navigates: bool, state: Auth.AuthState)

  /** `handleSubmit`: `register` runs only behind a valid, confirmed password;
      otherwise nothing happens at all. */
  function HandleSubmit(form: Form, st: Auth.AuthState, id: string): (r: Submitted)
    ensures r.registerCalled <==> IsPasswordValid(form.password) && PasswordsMatch(form.password, form.confirm)
    ensures !r.registerCalled ==> r.state == st && !r.navigates
    ensures r.registerCalled ==>
      r.navigates && r.state == Auth.Register(st, form.name, form.email, form.password, id).state
  {
    if !IsPasswordValid(form.password) then Submitted(false, false, st)
    else if !PasswordsMatch(form.password, form.confirm) then Submitted(false, false, st)
    else
      var o := Auth.Register(st, form.name, form.email, form.password, id);
      Submitted(true, o.ok, o.state)
  }

  /** `disabled={isLoading || !isPasswordValid || !passwordsMatch}`. */
  predicate SubmitDisabled(isLoading: bool, form: Form)
  {
    isLoading || !IsPasswordValid(form.password) || !PasswordsMatch(form.password, form.confirm)
  }

  /** The button and the handler agree: a submit from an enabled button that the
      browser's own field checks let through registers, and a submit that does
      not register comes from a disabled button. */
  lemma EnabledButtonRegisters(st: Auth.AuthState, form: Form, id: string)
    ensures !SubmitDisabled(st.isLoading, form) ==> HandleSubmit(form, st, id).registerCalled
    ensures !HandleSubmit(form, st, id).registerCalled ==> SubmitDisabled(st.isLoading, form)
  {
  }

  /** A password that meets the policy, and one a character short of it. */
  lemma PasswordExamples()
    ensures IsPasswordValid("Abcd1234")
    ensures !IsPasswordValid("Abc1234")
  {
    var p := "Abcd1234";
    assert IsUpper(p[0]) && IsLower(p[1]) && IsDigit(p[4]);
  }
}
