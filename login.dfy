/** The login page: the mobile number check before an OTP is sent, the
    address of the verification page, and the redirect of a visitor who
    already holds a token. */
module Login {
  import opened Common

  /** The input limit of the number field. */
  const MaxInputLength: nat := 10

  /** `mobile.replace(/\D/g, "")`. */
  function MobileDigits(mobile: string): (r: string)
    ensures AllDigits(r) && |r| <= |mobile|
  {
    Filter(mobile, IsDigit)
  }

  datatype SubmitOutcome = Rejected(error: string) | SendOtp(number: string)

  /** Submitting the form: a number of exactly ten digits is sent as those
      digits; anything else sets the error and sends nothing. */
  function Submit(mobile: string): (r: SubmitOutcome)
    ensures r.SendOtp? <==> |MobileDigits(mobile)| == 10
    ensures r.SendOtp? ==> |r.number| == 10 && AllDigits(r.number) && r.number == MobileDigits(mobile)
    ensures r.Rejected? ==> r.error == "Enter a valid 10-digit mobile number."
  {
    var trimmed := MobileDigits(mobile);
    if |trimmed| != 10 then Rejected("Enter a valid 10-digit mobile number.") else SendOtp(trimmed)
  }

  /** Where a sent OTP leads: the raw input as `mobile`, and `next` only
      when the page was given a non-empty one. */
  function VerifyUrl(mobile: string, next: Option<string>): string
  {
    "/verify-otp?mobile=" + EncodeURIComponent(mobile)
      + (if next.Some? && next.value != "" then "&next=" + EncodeURIComponent(next.value) else "")
  }

  /** Without a `next` parameter the address is only the number; with one,
      it is added as a second parameter. */
  lemma VerifyUrlShape(mobile: string, next: Option<string>)
    ensures next.None? || next == Some("") ==>
      VerifyUrl(mobile, next) == "/verify-otp?mobile=" + EncodeURIComponent(mobile)
    ensures next.Some? && next.value != "" ==>
      VerifyUrl(mobile, next) == "/verify-otp?mobile=" + EncodeURIComponent(mobile) + "&next=" + EncodeURIComponent(next.value)
    ensures '&' !in EncodeURIComponent(mobile)
  {
    var e := EncodeURIComponent(mobile);
    assert forall i :: 0 <= i < |e| ==> e[i] != '&';
  }

  /** Within the input limit, a number that passes the check was typed as
      bare digits, so the verification page receives the very number the
      OTP went to. */
  lemma SentNumberIsUrlNumber(mobile: string, next: Option<string>)
    requires |mobile| <= MaxInputLength && Submit(mobile).SendOtp?
    ensures mobile == Submit(mobile).number
    ensures StartsWith(VerifyUrl(mobile, next), "/verify-otp?mobile=" + Submit(mobile).number)
  {
    FilterLengthAll(mobile, IsDigit);
    assert EncodeURIComponent(mobile) == mobile;
    var u := VerifyUrl(mobile, next);
    var p := "/verify-otp?mobile=" + mobile;
    assert u == p + (u[|p|..]);
  }

  /** Without the 10-character input limit, a number split by a space (such
      as "98765 43210") passes the check, and the number sent differs from the
      raw input the verification page receives. */
  lemma LongInputDiffers(a: string, b: string)
    requires AllDigits(a) && AllDigits(b) && |a| + |b| == 10
    ensures var m := a + " " + b; Submit(m).SendOtp? && Submit(m).number != m
  {
    var m := a + " " + b;
    assert m == (a + " ") + b;
    FilterAppend(a + " ", b, IsDigit);
    FilterAppend(a, " ", IsDigit);
    FilterKeepsAll(a, IsDigit);
    FilterKeepsAll(b, IsDigit);
    FilterNone(" ", IsDigit);
    assert |MobileDigits(m)| == 10;
  }

  /** A visitor holding a token goes to `next`, or to "/home" without one. */
  function RedirectIfLoggedIn(token: Option<string>, next: Option<string>): (r: Option<string>)
    ensures r.Some? <==> token.Some? && token.value != ""
    ensures r.Some? && next.Some? && next.value != "" ==> r.value == next.value
    ensures r.Some? && (next.None? || next.value == "") ==> r.value == "/home"
  {
    if token.Some? && token.value != "" then
      Some(if next.Some? && next.value != "" then next.value else "/home")
    else None
  }
}
