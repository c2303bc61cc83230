/** The sign-up page's client-side checks: `validateInputs` sets an error
    flag and a message for each of the three fields and answers whether all
    three passed; `handleSubmit` builds the request only when they did. */
module SignUp {
  import opened Base
  import opened Text

  const NAME_REQUIRED := "Name is required."
  const EMAIL_INVALID := "Please enter a valid email address."
  const PASSWORD_TOO_SHORT := "Password must be at least 6 characters long."

  /** The shortest password accepted, in UTF-16 code units. */
  const MIN_PASSWORD_LENGTH: nat := 6

  /** `\S+@\S+\.\S+` matches with its `@` at `at` and its `.` at `dot`: a
      non-space just before the `@`, a non-empty run of non-spaces between
      the two, and a non-space just after the dot. */
  predicate EmailMatchAt(s: string, at: int, dot: int) {
    && 1 <= at && at + 1 < dot && dot + 1 < |s|
    && s[at] == '@' && s[dot] == '.'
    && !IsSpace(s[at - 1]) && !IsSpace(s[dot + 1])
    && forall k | at < k < dot :: !IsSpace(s[k])
  }

  /** `/\S+@\S+\.\S+/.test(s)`: the pattern is not anchored, so it may match
      anywhere in `s`. */
  predicate EmailMatches(s: string) {
    exists at, dot | 0 <= at < dot < |s| :: EmailMatchAt(s, at, dot)
  }

  predicate NameOk(name: string) {
    name != ""
  }

  predicate EmailOk(email: string) {
    email != "" && EmailMatches(email)
  }

  predicate PasswordOk(password: string) {
    password != "" && Utf16Length(password) >= MIN_PASSWORD_LENGTH
  }

  /** What `handleSubmit` posts: the three fields as typed. */
  datatype SignUpRequest = SignUpRequest(name: string, email: string, password: string)

  /** The page's error state. */
  class SignUpForm {
    var nameError: bool
    var nameErrorMessage: string
    var emailError: bool
    var emailErrorMessage: string
    var passwordError: bool
    var passwordErrorMessage: string
    var submitError: string

    constructor ()
      ensures !nameError && !emailError && !passwordError
      ensures nameErrorMessage == "" && emailErrorMessage == "" && passwordErrorMessage == ""
      ensures submitError == ""
    {
      nameError, nameErrorMessage := false, "";
      emailError, emailErrorMessage := false, "";
      passwordError, passwordErrorMessage := false, "";
      submitError := "";
    }

    /** `validateInputs`: each field is checked on its own, a failing one
        gets its flag and message, a passing one has both cleared, and the
        answer is whether all three passed. */
    method ValidateInputs(name: string, email: string, password: string) returns (isValid: bool)
      modifies this
      ensures isValid <==> NameOk(name) && EmailOk(email) && PasswordOk(password)
      ensures nameError == !NameOk(name)
      ensures nameErrorMessage == if NameOk(name) then "" else NAME_REQUIRED
      ensures emailError == !EmailOk(email)
      ensures emailErrorMessage == if EmailOk(email) then "" else EMAIL_INVALID
      ensures passwordError == !PasswordOk(password)
      ensures passwordErrorMessage == if PasswordOk(password) then "" else PASSWORD_TOO_SHORT
      ensures submitError == old(submitError)
    {
      isValid := true;
      if name == "" {
        nameError, nameErrorMessage := true, NAME_REQUIRED;
        isValid := false;
      } else {
        nameError, nameErrorMessage := false, "";
      }
      if email == "" || !EmailMatches(email) {
        emailError, emailErrorMessage := true, EMAIL_INVALID;
        isValid := false;
      } else {
        emailError, emailErrorMessage := false, "";
      }
      if password == "" || Utf16Length(password) < MIN_PASSWORD_LENGTH {
        passwordError, passwordErrorMessage := true, PASSWORD_TOO_SHORT;
        isValid := false;
      } else {
        passwordError, passwordErrorMessage := false, "";
      }
    }

    /** `handleSubmit` up to the request: the submit error is cleared, and
        no request is built unless every field passed. */
    method HandleSubmit(name: string, email: string, password: string) returns (request: Option<SignUpRequest>)
      modifies this
      ensures request.Some? <==> NameOk(name) && EmailOk(email) && PasswordOk(password)
      ensures request.Some? ==> request.value == SignUpRequest(name, email, password)
      ensures submitError == ""
      ensures nameError == !NameOk(name) && emailError == !EmailOk(email) && passwordError == !PasswordOk(password)
      ensures nameErrorMessage == if NameOk(name) then "" else NAME_REQUIRED
      ensures emailErrorMessage == if EmailOk(email) then "" else EMAIL_INVALID
      ensures passwordErrorMessage == if PasswordOk(password) then "" else PASSWORD_TOO_SHORT
    {
      submitError := "";
      var ok := ValidateInputs(name, email, password);
      if !ok {
        return None;
      }
      request := Some(SignUpRequest(name, email, password));
    }
  }

  /** An address that matches still matches with anything around it: the
      pattern is searched for, not anchored. */
  lemma EmailMatchesInside(pre: string, s: string, post: string)
    requires EmailMatches(s)
    ensures EmailMatches(pre + s + post)
  {
    var at, dot :| 0 <= at < dot < |s| && EmailMatchAt(s, at, dot);
    var t := pre + s + post;
    assert forall k :: 0 <= k < |s| ==> t[|pre| + k] == s[k];
    assert EmailMatchAt(t, |pre| + at, |pre| + dot);
  }

  /** With no dot after the `@` there is no match. */
  lemma NoDotAfterAtRejected(s: string)
    requires forall at, dot :: 0 <= at < dot < |s| && s[at] == '@' ==> s[dot] != '.'
    ensures !EmailOk(s)
  {
  }

  /** A space anywhere between the `@` and the dot breaks the middle part. */
  lemma SpaceBetweenRejected(s: string)
    requires forall at, dot :: 0 <= at < dot < |s| && s[at] == '@' && s[dot] == '.' ==>
               exists k :: at < k < dot && IsSpace(s[k])
    ensures !EmailOk(s)
  {
  }

  lemma EmailExamples()
    ensures EmailOk("a@b.c")
    ensures !EmailOk("a@b.")
    ensures !EmailOk("a@.c")
    ensures !EmailOk("@b.c")
    ensures !EmailOk("a @b.c")
  {
    assert EmailMatchAt("a@b.c", 1, 3);
  }

  /** Five characters are too few, six are enough. */
  lemma PasswordBoundary()
    ensures !PasswordOk("12345")
    ensures PasswordOk("123456")
  {
  }

  /** For passwords in the Basic Multilingual Plane the limit is a count of
      characters. */
  lemma PasswordLengthInCharacters(password: string)
    requires forall i :: 0 <= i < |password| ==> password[i] as int <= 0xFFFF
    ensures PasswordOk(password) <==> |password| >= MIN_PASSWORD_LENGTH
  {
  }
}
