/** The sign-in / sign-up form: its fields, the error messages the validator
    attaches to them, the change handler that edits one field, and the submit
    guard. The email check is the regular expression `\S+@\S+\.\S+` applied
    with `RegExp.prototype.test`, which looks for a match anywhere in the text. */
module LoginForm {
  import opened Text

  datatype Field = Email | Password | ConfirmPassword | FirstName | LastName | AgreeToTerms

  datatype FormData = FormData(
    email: string,
    password: string,
    confirmPassword: string,
    firstName: string,
    lastName: string,
    agreeToTerms: bool)

  const EmptyForm: FormData := FormData("", "", "", "", "", false)

  const MinPasswordLength: nat := 6

  const EmailRequired: string := "Email is required"
  const EmailInvalid: string := "Please enter a valid email"
  const PasswordRequired: string := "Password is required"
  const PasswordTooShort: string := "Password must be at least 6 characters"
  const FirstNameRequired: string := "First name is required"
  const LastNameRequired: string := "Last name is required"
  const PasswordsDiffer: string := "Passwords do not match"
  const TermsRequired: string := "Please agree to the terms and conditions"

  // ---------------------------------------------------------------------
  // The email pattern
  // ---------------------------------------------------------------------

  /** Every character of `w` is in `\S`. */
  ghost predicate AllNonSpace(w: string)
  {
    forall k :: 0 <= k < |w| ==> !IsJsSpace(w[k])
  }

  /** `w` is `a + "@" + b + "." + c` for non-empty `a`, `b`, `c` made of `\S`
      characters, i.e. `w` is in the language of `\S+@\S+\.\S+`; `p` is the
      position of the `@` and `q` that of the `.`. */
  ghost predicate SplitsAt(w: string, p: int, q: int)
  {
    0 < p && p + 1 < q && q + 1 < |w| && w[p] == '@' && w[q] == '.'
    && AllNonSpace(w[..p]) && AllNonSpace(w[p + 1..q]) && AllNonSpace(w[q + 1..])
  }

  ghost predicate InPatternLanguage(w: string)
  {
    exists p, q :: SplitsAt(w, p, q)
  }

  /** `/\S+@\S+\.\S+/.test(s)`: some substring of `s` is in the language. */
  ghost predicate EmailPatternMatches(s: string)
  {
    exists i, j :: 0 <= i <= j <= |s| && InPatternLanguage(s[i..j])
  }

  /** An `@` at `p` and a `.` at `q` with a `\S` character just before the
      `@`, one just after the `.` and only `\S` characters between them. */
  predicate ShapedAt(s: string, p: int, q: int)
  {
    0 < p && p + 1 < q && q + 1 < |s| && s[p] == '@' && s[q] == '.'
    && !IsJsSpace(s[p - 1]) && !IsJsSpace(s[q + 1])
    && forall k | p < k < q :: !IsJsSpace(s[k])
  }

  /** The executable form of the email check. */
  predicate IsEmailShaped(s: string)
  {
    exists p, q | 0 < p < |s| && p + 1 < q < |s| - 1 :: ShapedAt(s, p, q)
  }

  /** A shaped `@`/`.` pair yields a matching substring: the one from the
      character before the `@` to the character after the `.`. */
  lemma ShapedIsMatch(s: string, p: int, q: int)
    requires ShapedAt(s, p, q)
    ensures EmailPatternMatches(s)
  {
    var w := s[p - 1..q + 2];
    var p', q' := 1, q - p + 1;
    assert w[..p'] == [s[p - 1]];
    assert w[q' + 1..] == [s[q + 1]];
    var middle := w[p' + 1..q'];
    forall k | 0 <= k < |middle|
      ensures !IsJsSpace(middle[k])
    {
      assert middle[k] == s[p + 1 + k];
    }
    assert SplitsAt(w, p', q');
    assert InPatternLanguage(s[p - 1..q + 2]);
  }

  /** A matching substring has its `@` and `.` at a shaped pair of `s`. */
  lemma MatchIsShaped(s: string, i: int, j: int, p: int, q: int)
    requires 0 <= i <= j <= |s| && SplitsAt(s[i..j], p, q)
    ensures ShapedAt(s, i + p, i + q)
  {
    var w := s[i..j];
    assert w[..p][p - 1] == s[i + p - 1];
    assert w[q + 1..][0] == s[i + q + 1];
    forall k | i + p < k < i + q
      ensures !IsJsSpace(s[k])
    {
      assert w[p + 1..q][k - i - p - 1] == s[k];
    }
  }

  /** The executable check answers exactly what the regular expression answers. */
  lemma EmailShapeIsPatternMatch(s: string)
    ensures IsEmailShaped(s) <==> EmailPatternMatches(s)
  {
    if IsEmailShaped(s) {
      var p, q :| ShapedAt(s, p, q);
      ShapedIsMatch(s, p, q);
    }
    if EmailPatternMatches(s) {
      var i, j :| 0 <= i <= j <= |s| && InPatternLanguage(s[i..j]);
      var p, q :| SplitsAt(s[i..j], p, q);
      MatchIsShaped(s, i, j, p, q);
    }
  }

  // ---------------------------------------------------------------------
  // The validator
  // ---------------------------------------------------------------------

  /** The error dictionary `validateForm` builds for `form` in the given mode:
      which keys it holds and the message under each. */
  ghost predicate ErrorsFor(form: FormData, isLogin: bool, errors: map<Field, string>)
  {
    && (Email in errors <==> form.email == "" || !EmailPatternMatches(form.email))
    && (Email in errors ==> errors[Email] == if form.email == "" then EmailRequired else EmailInvalid)
    && (Password in errors <==> |form.password| < MinPasswordLength)
    && (Password in errors ==>
          errors[Password] == if form.password == "" then PasswordRequired else PasswordTooShort)
    && (FirstName in errors <==> !isLogin && form.firstName == "")
    && (FirstName in errors ==> errors[FirstName] == FirstNameRequired)
    && (LastName in errors <==> !isLogin && form.lastName == "")
    && (LastName in errors ==> errors[LastName] == LastNameRequired)
    && (ConfirmPassword in errors <==> !isLogin && form.password != form.confirmPassword)
    && (ConfirmPassword in errors ==> errors[ConfirmPassword] == PasswordsDiffer)
    && (AgreeToTerms in errors <==> !isLogin && !form.agreeToTerms)
    && (AgreeToTerms in errors ==> errors[AgreeToTerms] == TermsRequired)
  }

  /** The form passes validation: what an empty error dictionary amounts to. */
  ghost predicate Acceptable(form: FormData, isLogin: bool)
  {
    && form.email != "" && EmailPatternMatches(form.email)
    && |form.password| >= MinPasswordLength
    && (!isLogin ==>
          form.firstName != "" && form.lastName != ""
          && form.password == form.confirmPassword && form.agreeToTerms)
  }

  /** The dictionary is empty exactly when the form is acceptable. */
  lemma NoErrorsIffAcceptable(form: FormData, isLogin: bool, errors: map<Field, string>)
    requires ErrorsFor(form, isLogin, errors)
    ensures errors == map[] <==> Acceptable(form, isLogin)
  {
    if errors != map[] {
      var f :| f in errors;
      match f
      case Email =>
      case Password =>
      case ConfirmPassword =>
      case FirstName =>
      case LastName =>
      case AgreeToTerms =>
    }
  }

  /** `ErrorsFor` leaves no choice: it describes one dictionary. */
  lemma ErrorsForIsUnique(form: FormData, isLogin: bool, e1: map<Field, string>, e2: map<Field, string>)
    requires ErrorsFor(form, isLogin, e1) && ErrorsFor(form, isLogin, e2)
    ensures e1 == e2
  {
    forall f
      ensures (f in e1 <==> f in e2) && (f in e1 ==> e1[f] == e2[f])
    {
      match f
      case Email =>
      case Password =>
      case ConfirmPassword =>
      case FirstName =>
      case LastName =>
      case AgreeToTerms =>
    }
    assert e1.Keys == e2.Keys;
  }

  /** The checks of `validateForm`, filling a fresh dictionary key by key. */
  method BuildErrors(form: FormData, isLogin: bool) returns (newErrors: map<Field, string>)
    ensures ErrorsFor(form, isLogin, newErrors)
  {
    newErrors := map[];
    EmailShapeIsPatternMatch(form.email);
    if form.email == "" {
      newErrors := newErrors[Email := EmailRequired];
    } else if !IsEmailShaped(form.email) {
      newErrors := newErrors[Email := EmailInvalid];
    }

    if form.password == "" {
      newErrors := newErrors[Password := PasswordRequired];
    } else if |form.password| < MinPasswordLength {
      newErrors := newErrors[Password := PasswordTooShort];
    }

    if !isLogin {
      if form.firstName == "" {
        newErrors := newErrors[FirstName := FirstNameRequired];
      }
      if form.lastName == "" {
        newErrors := newErrors[LastName := LastNameRequired];
      }
      if form.password != form.confirmPassword {
        newErrors := newErrors[ConfirmPassword := PasswordsDiffer];
      }
      if !form.agreeToTerms {
        newErrors := newErrors[AgreeToTerms := TermsRequired];
      }
    }
  }

  // ---------------------------------------------------------------------
  // The page state
  // ---------------------------------------------------------------------

  class AuthPage {
    var isLogin: bool
    var formData: FormData
    var errors: map<Field, string>
    var isLoading: bool

    constructor ()
      ensures isLogin && formData == EmptyForm && errors == map[] && !isLoading
    {
      isLogin := true;
      formData := EmptyForm;
      errors := map[];
      isLoading := false;
    }

    /** The change handler shared by the inputs: set the named field (from
        `checked` for the checkbox, from `value` otherwise) and blank that
        field's error if it shows one. The terms box is the only named
        checkbox of the form. */
    method HandleInputChange(name: Field, isCheckbox: bool, value: string, checked: bool)
      requires isCheckbox <==> name == AgreeToTerms
      modifies this
      ensures name == Email ==> formData == old(formData).(email := value)
      ensures name == Password ==> formData == old(formData).(password := value)
      ensures name == ConfirmPassword ==> formData == old(formData).(confirmPassword := value)
      ensures name == FirstName ==> formData == old(formData).(firstName := value)
      ensures name == LastName ==> formData == old(formData).(lastName := value)
      ensures name == AgreeToTerms ==> formData == old(formData).(agreeToTerms := checked)
      ensures old(name in errors && errors[name] != "") ==> errors == old(errors)[name := ""]
      ensures !old(name in errors && errors[name] != "") ==> errors == old(errors)
      ensures isLogin == old(isLogin) && isLoading == old(isLoading)
    {
      match name {
        case Email => formData := formData.(email := value);
        case Password => formData := formData.(password := value);
        case ConfirmPassword => formData := formData.(confirmPassword := value);
        case FirstName => formData := formData.(firstName := value);
        case LastName => formData := formData.(lastName := value);
        case AgreeToTerms => formData := formData.(agreeToTerms := checked);
      }

      if name in errors && errors[name] != "" {
        errors := errors[name := ""];
      }
    }

    /** Replace the shown errors with a fresh validation of the form and say
        whether it found nothing. */
    method ValidateForm() returns (ok: bool)
      modifies this
      ensures ErrorsFor(formData, isLogin, errors)
      ensures ok <==> errors == map[]
      ensures ok <==> Acceptable(formData, isLogin)
      ensures formData == old(formData) && isLogin == old(isLogin) && isLoading == old(isLoading)
    {
      var newErrors := BuildErrors(formData, isLogin);
      errors := newErrors;
      ok := |newErrors| == 0;
      NoErrorsIffAcceptable(formData, isLogin, errors);
    }

    /** The submit button: validate, and start loading only when validation
        passes. */
    method HandleSubmit()
      modifies this
      ensures ErrorsFor(formData, isLogin, errors)
      ensures errors == map[] ==> isLoading
      ensures errors != map[] ==> isLoading == old(isLoading)
      ensures formData == old(formData) && isLogin == old(isLogin)
    {
      var ok := ValidateForm();
      if !ok {
        return;
      }
      isLoading := true;
    }
  }
}
