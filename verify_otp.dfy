/** The OTP verification page: six one-digit cells with a focus cursor,
    the verify action, and the resend countdown. */
module VerifyOtp {
  import opened Common

  const OtpLength: nat := 6
  const ResendSeconds: int := 30

  /** What `value.replace(/\D/g, "").slice(-1)` keeps: the last digit
      typed, or nothing. */
  function LastDigit(value: string): (r: string)
    ensures |r| <= 1 && AllDigits(r)
    ensures r == [] <==> forall i :: 0 <= i < |value| ==> !IsDigit(value[i])
    ensures r != [] ==> exists i :: (0 <= i < |value| && value[i] == r[0]
                                     && forall j :: i < j < |value| ==> !IsDigit(value[j]))
  {
    if value == [] then []
    else if IsDigit(value[|value| - 1]) then [value[|value| - 1]]
    else LastDigit(value[..|value| - 1])
  }

  /** A cell holds nothing or exactly one digit. */
  predicate IsCell(s: string) { |s| <= 1 && AllDigits(s) }

  /** `otp.join("")`. */
  function Joined(cells: seq<string>): string
  {
    Flatten(cells)
  }

  /** With cells of at most one character, the joined code has the full
      length exactly when every cell is filled. */
  lemma {:induction false} JoinedLength(cells: seq<string>)
    requires forall i :: 0 <= i < |cells| ==> |cells[i]| <= 1
    ensures |Joined(cells)| <= |cells|
    ensures |Joined(cells)| == |cells| <==> forall i :: 0 <= i < |cells| ==> |cells[i]| == 1
    decreases |cells|
  {
    FlattenLength(cells);
    if cells != [] {
      var init := cells[..|cells| - 1];
      JoinedLength(init);
      FlattenLength(init);
      assert forall i :: 0 <= i < |init| ==> init[i] == cells[i];
    }
  }

  datatype VerifyRequest = VerifyRequest(mobile: string, code: string)

  class OtpForm {
    const mobile: string
    const next: string
    var cells: seq<string>
    /** The cell that has the keyboard focus. */
    var focus: nat
    var timer: int
    var error: string
    /** Every verification request sent, oldest first. */
    var verifyRequests: seq<VerifyRequest>
    /** Every number an OTP was re-sent to, oldest first. */
    var resendRequests: seq<string>

    ghost predicate Valid()
      reads this
    {
      && |cells| == OtpLength
      && (forall i :: 0 <= i < |cells| ==> IsCell(cells[i]))
      && focus < OtpLength
      && 0 <= timer <= ResendSeconds
    }

    /** The page opened with `mobile` and `next` from its address; a
        missing `next` means "/home". */
    constructor (mobileParam: Option<string>, nextParam: Option<string>)
      ensures Valid()
      ensures mobile == (if mobileParam.Some? then mobileParam.value else "")
      ensures next == (if nextParam.Some? && nextParam.value != "" then nextParam.value else "/home")
      ensures cells == seq(OtpLength, _ => "") && focus == 0
      ensures timer == ResendSeconds && error == "" && verifyRequests == [] && resendRequests == []
    {
      mobile := if mobileParam.Some? then mobileParam.value else "";
      next := if nextParam.Some? && nextParam.value != "" then nextParam.value else "/home";
      cells := seq(OtpLength, _ => "");
      focus := 0;
      timer := ResendSeconds;
      error := "";
      verifyRequests := [];
      resendRequests := [];
    }

    /** The mount effect: without a number the page goes back to login. */
    function RedirectOnMount(): (r: Option<string>)
      reads this
      ensures r.Some? <==> mobile == ""
      ensures r.Some? ==> r.value == "/login"
    {
      if mobile == "" then Some("/login") else None
    }

    /** One second of the resend countdown, stopping at zero. */
    method Tick()
      requires Valid()
      modifies this
      ensures Valid()
      ensures timer == if old(timer) > 0 then old(timer) - 1 else 0
      ensures cells == old(cells) && focus == old(focus) && error == old(error)
      ensures verifyRequests == old(verifyRequests) && resendRequests == old(resendRequests)
    {
      timer := if timer > 0 then timer - 1 else 0;
    }

    /** Typing into cell `index`: the cell keeps the last digit typed (or
        becomes empty), no other cell changes, the error clears, and the
        focus moves on after a digit unless this is the last cell. */
    method Change(value: string, index: nat)
      requires Valid() && index < OtpLength
      modifies this
      ensures Valid()
      ensures cells == old(cells)[index := LastDigit(value)]
      ensures forall i :: 0 <= i < OtpLength && i != index ==> cells[i] == old(cells[i])
      ensures error == ""
      ensures focus == if LastDigit(value) != [] && index < OtpLength - 1 then index + 1 else old(focus)
      ensures timer == old(timer) && verifyRequests == old(verifyRequests) && resendRequests == old(resendRequests)
    {
      var digit := LastDigit(value);
      cells := cells[index := digit];
      error := "";
      if digit != [] && index < OtpLength - 1 {
        focus := index + 1;
      }
    }

    /** Backspace in an empty cell other than the first moves the focus
        back; every other key leaves everything alone. */
    method KeyDown(key: string, index: nat)
      requires Valid() && index < OtpLength
      modifies this
      ensures Valid()
      ensures focus == if key == "Backspace" && cells[index] == [] && index > 0 then index - 1 else old(focus)
      ensures cells == old(cells) && timer == old(timer) && error == old(error)
      ensures verifyRequests == old(verifyRequests) && resendRequests == old(resendRequests)
    {
      if key == "Backspace" && cells[index] == [] && index > 0 {
        focus := index - 1;
      }
    }

    /** Submitting the code: a request goes out only when all six cells
        are filled; otherwise the error asks for the full code. */
    method Verify()
      requires Valid()
      modifies this
      ensures Valid()
      ensures (forall i :: 0 <= i < OtpLength ==> cells[i] != []) ==>
        verifyRequests == old(verifyRequests) + [VerifyRequest(mobile, Joined(cells))] && error == ""
      ensures (exists i :: 0 <= i < OtpLength && cells[i] == []) ==>
        verifyRequests == old(verifyRequests) && error == "Enter the 6-digit OTP."
      ensures cells == old(cells) && focus == old(focus) && timer == old(timer)
      ensures resendRequests == old(resendRequests)
    {
      error := "";
      var code := Joined(cells);
      JoinedLength(cells);
      if |code| != OtpLength {
        error := "Enter the 6-digit OTP.";
        return;
      }
      verifyRequests := verifyRequests + [VerifyRequest(mobile, code)];
    }

    /** A failed verification reports the code as invalid. */
    method VerifyFailed()
      requires Valid()
      modifies this
      ensures Valid() && error == "Invalid OTP. Please try again."
      ensures cells == old(cells) && focus == old(focus) && timer == old(timer)
      ensures verifyRequests == old(verifyRequests) && resendRequests == old(resendRequests)
    {
      error := "Invalid OTP. Please try again.";
    }

    /** Asking for a new code: nothing happens while the countdown runs or
        without a number. */
    method Resend()
      requires Valid()
      modifies this
      ensures Valid()
      ensures mobile == "" || old(timer) > 0 ==> resendRequests == old(resendRequests) && error == old(error)
      ensures mobile != "" && old(timer) <= 0 ==> resendRequests == old(resendRequests) + [mobile] && error == ""
      ensures cells == old(cells) && focus == old(focus) && timer == old(timer)
      ensures verifyRequests == old(verifyRequests)
    {
      if mobile == "" || timer > 0 {
        return;
      }
      error := "";
      resendRequests := resendRequests + [mobile];
    }

    /** A new code was sent: the countdown starts over. */
    method ResendSucceeded()
      requires Valid()
      modifies this
      ensures Valid() && timer == ResendSeconds
      ensures cells == old(cells) && focus == old(focus) && error == old(error)
      ensures verifyRequests == old(verifyRequests) && resendRequests == old(resendRequests)
    {
      timer := ResendSeconds;
    }

    method ResendFailed()
      requires Valid()
      modifies this
      ensures Valid() && error == "Unable to resend OTP."
      ensures cells == old(cells) && focus == old(focus) && timer == old(timer)
      ensures verifyRequests == old(verifyRequests) && resendRequests == old(resendRequests)
    {
      error := "Unable to resend OTP.";
    }
  }

  /** Typing "12a3" into a cell keeps the 3; typing letters only empties it. */
  lemma LastDigitExamples()
    ensures LastDigit("12a3") == "3"
    ensures LastDigit("ab") == ""
  {
    assert "ab"[..1] == "a";
  }

  /** Thirty ticks after a resend the button is enabled again, and not before. */
  lemma {:induction false} CountdownReachesZero(t: int, n: nat)
    requires 0 <= t
    ensures CountdownAfter(t, n) == if n >= t then 0 else t - n
    decreases n
  {
    if n > 0 {
      CountdownReachesZero(t, n - 1);
    }
  }

  /** The countdown after `n` ticks, one tick at a time. */
  function CountdownAfter(t: int, n: nat): int
  {
    if n == 0 then t else
      var prev := CountdownAfter(t, n - 1);
      if prev > 0 then prev - 1 else 0
  }
}
