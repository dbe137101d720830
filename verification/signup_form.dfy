/**
 The client-side password check of `SignupForm.onSubmit`
 (src/components/signup-form.tsx): a too-short password is reported first,
 then a mismatching confirmation; the message is Croatian for the "hr"
 locale and English otherwise.
 */
module SignupForm {
  import opened Common

  /** JavaScript's `length`: UTF-16 code units, two for a character outside
      the Basic Multilingual Plane. */
  function Utf16Length(s: string): (n: nat)
    ensures |s| <= n <= 2 * |s|
  {
    if s == [] then 0 else (if s[0] as int > 0xFFFF then 2 else 1) + Utf16Length(s[1..])
  }

  const MinPasswordLength := 6

  function LengthError(isHR: bool): string {
    if isHR then "\U{0160}ifra mora imati barem 6 znakova." else "Password must be at least 6 characters."
  }

  function MismatchError(isHR: bool): string {
    if isHR then "\U{0160}ifre se ne podudaraju." else "Passwords do not match."
  }

  /** The state `onSubmit` leaves: the error shown (`null` cleared) and
      whether the browser's submission was prevented. */
  datatype SubmitCheck = SubmitCheck(error: Option<string>, blocked: bool)

  function OnSubmit(locale: string, pw: string, pw2: string): (r: SubmitCheck)
    // submission is blocked exactly when an error is shown
    ensures r.blocked <==> r.error.Some?
    // the length error wins whatever the confirmation says
    ensures Utf16Length(pw) < MinPasswordLength ==> r.error == Some(LengthError(locale == "hr"))
    ensures Utf16Length(pw) >= MinPasswordLength && pw != pw2 ==> r.error == Some(MismatchError(locale == "hr"))
    // a long enough, confirmed password clears the error and goes through
    ensures r.error.None? <==> Utf16Length(pw) >= MinPasswordLength && pw == pw2
  {
    var isHR := locale == "hr";
    if Utf16Length(pw) < MinPasswordLength then SubmitCheck(Some(LengthError(isHR)), true)
    else if pw != pw2 then SubmitCheck(Some(MismatchError(isHR)), true)
    else SubmitCheck(None, false)
  }

  /** The message is Croatian exactly for the "hr" locale. */
  lemma ErrorLanguage(locale: string, pw: string, pw2: string)
    ensures var r := OnSubmit(locale, pw, pw2);
            r.error.Some? ==>
              (r.error.value in {LengthError(true), MismatchError(true)} <==> locale == "hr")
  {
    assert LengthError(true)[0] != LengthError(false)[0];
    assert LengthError(true)[0] != MismatchError(false)[0];
    assert MismatchError(true)[0] != LengthError(false)[0];
    assert MismatchError(true)[0] != MismatchError(false)[0];
  }

  /** Six characters always pass the length check; three characters outside
      the Basic Multilingual Plane pass it too, since each counts twice. */
  lemma LengthCountsCodeUnits(pw: string)
    ensures |pw| >= 6 ==> Utf16Length(pw) >= MinPasswordLength
    ensures Utf16Length(pw) < MinPasswordLength ==> |pw| < 6
    ensures Utf16Length("\U{1F600}\U{1F600}\U{1F600}") == 6
  {
  }
}
