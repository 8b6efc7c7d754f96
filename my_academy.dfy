/** The "My Academy" page: the academy's contact links (phone numbers
    normalised to international form, websites given a scheme) and the
    locked / live / ended state of each upcoming test. */
module MyAcademy {
  import opened Common

  /* ---------------------------------------------------------------- */
  /* normalizePhone                                                    */
  /* ---------------------------------------------------------------- */

  predicate IsPhoneChar(c: char) { IsDigit(c) || c == '+' }

  function PhoneChars(s: string): (r: string)
    ensures forall i :: 0 <= i < |r| ==> IsPhoneChar(r[i])
  {
    Filter(s, IsPhoneChar)
  }

  function Digits(s: string): (r: string)
    ensures AllDigits(r)
  {
    Filter(s, IsDigit)
  }

  /** A number in international form: kept as typed when it already starts
      with '+', given the Indian prefix +91 when it has exactly ten digits,
      otherwise given a bare '+'; the empty string when it has no digits. */
  function NormalizePhone(value: string): string
  {
    var digits := PhoneChars(value);
    var justDigits := Digits(digits);
    if StartsWith(digits, "+") then digits
    else if |justDigits| == 10 then "+91" + justDigits
    else if |justDigits| > 0 then "+" + justDigits
    else ""
  }

  /** The result holds only digits and '+', and is empty or starts with '+'. */
  lemma NormalizePhoneShape(value: string)
    ensures var r := NormalizePhone(value);
      (forall i :: 0 <= i < |r| ==> IsPhoneChar(r[i])) && (r == "" || r[0] == '+')
  {
    var r := NormalizePhone(value);
    var justDigits := Digits(PhoneChars(value));
    if r == "+91" + justDigits {
      forall i | 3 <= i < |r| ensures IsPhoneChar(r[i]) { assert r[i] == justDigits[i - 3]; }
    } else if r == "+" + justDigits {
      forall i | 1 <= i < |r| ensures IsPhoneChar(r[i]) { assert r[i] == justDigits[i - 1]; }
    }
  }

  /** The cases, in terms of what was typed. */
  lemma NormalizePhoneCases(value: string)
    ensures var digits := PhoneChars(value); var d := Digits(digits);
      && (StartsWith(digits, "+") ==> NormalizePhone(value) == digits)
      && (!StartsWith(digits, "+") && |d| == 10 ==> NormalizePhone(value) == "+91" + d)
      && (!StartsWith(digits, "+") && |d| != 10 && |d| > 0 ==> NormalizePhone(value) == "+" + d)
      && (!StartsWith(digits, "+") && d == [] ==> NormalizePhone(value) == "")
  {
  }

  /** A lone '+' has no digits and is still kept as typed. */
  lemma PlusWithoutDigits()
    ensures NormalizePhone("+") == "+"
  {
    FilterKeepsAll("+", IsPhoneChar);
  }

  /** Normalising a normalised number changes nothing. */
  lemma NormalizePhoneIdempotent(value: string)
    ensures NormalizePhone(NormalizePhone(value)) == NormalizePhone(value)
  {
    var r := NormalizePhone(value);
    NormalizePhoneShape(value);
    FilterKeepsAll(r, IsPhoneChar);
    assert PhoneChars(r) == r;
    if r != "" {
      assert StartsWith(r, "+");
    }
  }

  /** The WhatsApp link keeps only the digits of the normalised number. */
  function WhatsAppNumber(value: string): (r: string)
    ensures AllDigits(r)
  {
    Digits(NormalizePhone(value))
  }

  /** A plain ten-digit number is sent to WhatsApp with the country code 91. */
  lemma WhatsAppTenDigits(value: string)
    requires |value| == 10 && AllDigits(value)
    ensures WhatsAppNumber(value) == "91" + value
  {
    FilterKeepsAll(value, IsPhoneChar);
    FilterKeepsAll(value, IsDigit);
    assert PhoneChars(value) == value;
    assert !StartsWith(value, "+") by { assert IsDigit(value[0]); }
    var r := "+91" + value;
    assert r == ['+'] + ("91" + value);
    FilterCons('+', "91" + value, IsDigit);
    FilterKeepsAll("91" + value, IsDigit);
  }

  /* ---------------------------------------------------------------- */
  /* Website links                                                     */
  /* ---------------------------------------------------------------- */

  /** `/^https?:\/\//i`: the scheme matched without regard to ASCII case. */
  predicate HasWebScheme(w: string)
  {
    (|w| >= 7 && Lower(w[..7]) == "http://") || (|w| >= 8 && Lower(w[..8]) == "https://")
  }

  /** The link target: the website as given when it has a scheme, else with
      "https://" in front; no link for a missing or empty website. */
  function WebsiteHref(website: Option<string>): (r: Option<string>)
    ensures website.None? || website == Some("") <==> r.None?
    ensures r.Some? ==> HasWebScheme(r.value)
    ensures r.Some? ==> r.value == website.value || r.value == "https://" + website.value
    ensures r.Some? && HasWebScheme(website.value) ==> r.value == website.value
  {
    match website
    case None => None
    case Some(w) =>
      if w == "" then None
      else if HasWebScheme(w) then Some(w)
      else
        var u := "https://" + w;
        assert u[..8] == "https://";
        Some(u)
  }

  /** A prefixed website is not prefixed again. */
  lemma WebsiteHrefIdempotent(w: string)
    requires w != ""
    ensures WebsiteHref(WebsiteHref(Some(w))) == WebsiteHref(Some(w))
  {
  }

  /* ---------------------------------------------------------------- */
  /* Upcoming tests                                                    */
  /* ---------------------------------------------------------------- */

  datatype UpcomingTest = UpcomingTest(
    startAt: Option<int>,            // milliseconds; None when the date does not parse
    durationMinutes: Option<int>,
    paperDueMin: Option<int>)

  /** `durationMinutes || paperId.exam_due_min || 0`: a zero or missing
      value falls through to the next. */
  function Duration(t: UpcomingTest): (r: int)
    ensures t.durationMinutes.Some? && t.durationMinutes.value != 0 ==> r == t.durationMinutes.value
    ensures (t.durationMinutes.None? || t.durationMinutes.value == 0) && t.paperDueMin.Some? ==> r == t.paperDueMin.value
    ensures (t.durationMinutes.None? || t.durationMinutes.value == 0) && t.paperDueMin.None? ==> r == 0
  {
    if t.durationMinutes.Some? && t.durationMinutes.value != 0 then t.durationMinutes.value
    else if t.paperDueMin.Some? && t.paperDueMin.value != 0 then t.paperDueMin.value
    else 0
  }

  datatype TestState = TestState(locked: bool, ended: bool, live: bool)

  /** The card's state at `now`: locked before the start, ended after
      start plus the duration, live otherwise. A start that does not parse
      compares false both ways, so such a test reads as live. */
  function StateAt(t: UpcomingTest, now: int): TestState
  {
    match t.startAt
    case None => TestState(false, false, true)
    case Some(start) =>
      var end := start + Duration(t) * 60 * 1000;
      TestState(now < start, now > end, !(now < start) && !(now > end))
  }

  /** With a non-negative duration exactly one of the three states holds,
      and live means the clock is inside the window. */
  lemma ExactlyOneState(t: UpcomingTest, now: int)
    requires t.startAt.Some? && Duration(t) >= 0
    ensures var s := StateAt(t, now);
      && (s.locked <==> now < t.startAt.value)
      && (s.ended <==> now > t.startAt.value + Duration(t) * 60000)
      && (s.live <==> t.startAt.value <= now <= t.startAt.value + Duration(t) * 60000)
      && (if s.locked then 1 else 0) + (if s.ended then 1 else 0) + (if s.live then 1 else 0) == 1
  {
  }

  /** A test whose start date does not parse offers the "Open test" link. */
  lemma UnparseableStartIsLive(t: UpcomingTest, now: int)
    requires t.startAt.None?
    ensures StateAt(t, now).live && !StateAt(t, now).locked
  {
  }

  /** A later clock never moves a test back from ended, or into locked. */
  lemma StateIsMonotone(t: UpcomingTest, now: int, later: int)
    requires now <= later
    ensures StateAt(t, now).ended ==> StateAt(t, later).ended
    ensures StateAt(t, later).locked ==> StateAt(t, now).locked
  {
  }
}
