/** The dashboard: paper and competition cards, the three promoted
    competitions, the category and subcategory pickers and the paged list
    of practice papers. */
module Home {
  import opened Common
  import opened Listing

  /** A competition without a status is upcoming; any other status is
      shown as given. */
  function CompetitionStatus(c: Competition): (r: string)
    ensures c.status.Some? && c.status.value != "" ==> r == c.status.value
    ensures c.status.None? || c.status.value == "" ==> r == "upcoming"
  {
    if c.status.Some? && c.status.value != "" then c.status.value else "upcoming"
  }

  /* ---------------------------------------------------------------- */
  /* formatDuration                                                    */
  /* ---------------------------------------------------------------- */

  /** "—" without a duration, "N mins" under an hour, else whole hours and
      the remaining minutes when there are any. */
  function FormatDuration(minutes: Option<int>): string
  {
    if minutes.None? || minutes.value == 0 then "\U{2014}"
    else if minutes.value < 60 then IntToString(minutes.value) + " mins"
    else
      var hours, remainder := minutes.value / 60, minutes.value % 60;
      if remainder != 0 then NatToString(hours) + "h " + NatToString(remainder) + "m"
      else NatToString(hours) + "h"
  }

  /** The text reads back as the duration: under an hour the minutes
      themselves, otherwise hours times sixty plus the minutes shown, the
      minutes part being absent exactly when it would be zero. */
  lemma FormatDurationReadsBack(m: int)
    ensures m == 0 ==> FormatDuration(Some(m)) == "\U{2014}"
    ensures 0 < m < 60 ==> exists ds :: AllDigits(ds) && DigitsValue(ds) == m && FormatDuration(Some(m)) == ds + " mins"
    ensures m >= 60 && m % 60 == 0 ==>
      exists hs :: AllDigits(hs) && DigitsValue(hs) * 60 == m && FormatDuration(Some(m)) == hs + "h"
    ensures m >= 60 && m % 60 != 0 ==>
      exists hs, ms :: AllDigits(hs) && AllDigits(ms) && 0 < DigitsValue(ms) < 60
        && DigitsValue(hs) * 60 + DigitsValue(ms) == m && FormatDuration(Some(m)) == hs + "h " + ms + "m"
  {
    if 0 < m < 60 {
      NatToStringRoundTrip(m);
      assert FormatDuration(Some(m)) == NatToString(m) + " mins";
    } else if m >= 60 {
      NatToStringRoundTrip(m / 60);
      NatToStringRoundTrip(m % 60);
    }
  }

  /* ---------------------------------------------------------------- */
  /* Paper cards                                                       */
  /* ---------------------------------------------------------------- */

  /** `title || exam_name || "Untitled Paper"`. */
  function PaperTitle(p: PaperSummary): (r: string)
    ensures r != ""
    ensures p.title != "" ==> r == p.title
    ensures p.title == "" && p.examName.Some? && p.examName.value != "" ==> r == p.examName.value
    ensures p.title == "" && (p.examName.None? || p.examName.value == "") ==> r == "Untitled Paper"
  {
    if p.title != "" then p.title
    else if p.examName.Some? && p.examName.value != "" then p.examName.value
    else "Untitled Paper"
  }

  /** `total_questions ?? total_que_count`: only a missing count falls
      through, a zero one does not. */
  function PaperTotal(p: PaperSummary): (r: Option<int>)
    ensures p.totalQuestions.Some? ==> r == p.totalQuestions
    ensures p.totalQuestions.None? ==> r == p.totalQueCount
  {
    if p.totalQuestions.Some? then p.totalQuestions else p.totalQueCount
  }

  /** "N questions", or "Practice set" when the count is missing or zero. */
  function TotalLabel(total: Option<int>): (r: string)
    ensures total.None? || total.value == 0 <==> r == "Practice set"
  {
    if total.Some? && total.value != 0 then
      var s := IntToString(total.value) + " questions";
      assert s[|s| - 1] == 's';
      s
    else "Practice set"
  }

  /** "N mins", or "—" when the duration is missing or zero. */
  function DurationLabel(duration: Option<int>): (r: string)
    ensures duration.None? || duration.value == 0 <==> r == "\U{2014}"
  {
    if duration.Some? && duration.value != 0 then
      var s := IntToString(duration.value) + " mins";
      assert s[|s| - 1] == 's';
      s
    else "\U{2014}"
  }

  /** A zero `total_questions` hides a non-zero `total_que_count`. */
  lemma ZeroTotalHidesCount()
    ensures var p := PaperSummary("p", "", None, None, Some(0), Some(50));
      TotalLabel(PaperTotal(p)) == "Practice set"
  {
  }

  /* ---------------------------------------------------------------- */
  /* Promoted competitions                                             */
  /* ---------------------------------------------------------------- */

  function WithStatus(s: string): Competition -> bool
  {
    (c: Competition) => CompetitionStatus(c) == s
  }

  /** Up to three competitions: the live ones, then the upcoming ones. */
  function Promo(list: seq<Competition>): seq<Competition>
  {
    Take(Filter(list, WithStatus("live")) + Filter(list, WithStatus("upcoming")), 3)
  }

  /** At most three; only live and upcoming ones; every live one before
      every upcoming one; and a prefix of the live ones in list order
      followed by the upcoming ones in list order. */
  lemma PromoFacts(list: seq<Competition>)
    ensures var r := Promo(list);
      && |r| <= 3
      && (forall i :: 0 <= i < |r| ==> CompetitionStatus(r[i]) == "live" || CompetitionStatus(r[i]) == "upcoming")
      && (forall i, j :: 0 <= i < j < |r| && CompetitionStatus(r[i]) == "upcoming" ==> CompetitionStatus(r[j]) == "upcoming")
      && r == (Filter(list, WithStatus("live")) + Filter(list, WithStatus("upcoming")))[..|r|]
  {
    var live, up := Filter(list, WithStatus("live")), Filter(list, WithStatus("upcoming"));
    var all := live + up;
    var r := Promo(list);
    forall i | 0 <= i < |all|
      ensures (i < |live| ==> CompetitionStatus(all[i]) == "live")
      ensures (i >= |live| ==> CompetitionStatus(all[i]) == "upcoming")
    {
      if i < |live| { assert WithStatus("live")(live[i]); }
      else { assert all[i] == up[i - |live|]; assert WithStatus("upcoming")(up[i - |live|]); }
    }
    forall i, j | 0 <= i < j < |r| && CompetitionStatus(r[i]) == "upcoming"
      ensures CompetitionStatus(r[j]) == "upcoming"
    {
      assert r[i] == all[i] && r[j] == all[j];
    }
  }

  /** With a live competition, the first promoted one is live. */
  lemma PromoLiveFirst(list: seq<Competition>, k: nat)
    requires k < |list| && CompetitionStatus(list[k]) == "live"
    ensures Promo(list) != [] && CompetitionStatus(Promo(list)[0]) == "live"
  {
    FilterMembers(list, WithStatus("live"));
    assert list[k] in Filter(list, WithStatus("live"));
    var live := Filter(list, WithStatus("live"));
    assert WithStatus("live")(live[0]);
  }

  /* ---------------------------------------------------------------- */
  /* Categories and the paper list                                     */
  /* ---------------------------------------------------------------- */

  datatype Selection = Selection(category: Option<string>, subCategory: Option<string>)

  /** Picking a category clears the subcategory. */
  function PickCategory(s: Selection, category: string): (r: Selection)
    ensures r.category == Some(category) && r.subCategory.None?
  {
    Selection(Some(category), None)
  }

  /** The first category is chosen once the list loads, if none is yet. */
  function CategoriesLoaded(s: Selection, categories: seq<string>): (r: Selection)
    ensures s.category.None? && |categories| > 0 ==> r.category == Some(categories[0])
    ensures s.category.Some? || |categories| == 0 ==> r == s
  {
    if s.category.None? && |categories| > 0 then s.(category := Some(categories[0])) else s
  }

  /** Practice papers come eight to a page. */
  const PaperPageSize: nat := 8

  function NextPaperPage(pages: seq<seq<PaperSummary>>): (r: Option<nat>)
    ensures r.Some? <==> |pages| > 0 && |pages[|pages| - 1]| >= PaperPageSize
    ensures r.Some? ==> r.value == |pages| + 1
  {
    NextPage(pages, PaperPageSize)
  }
}
