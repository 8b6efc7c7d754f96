/** A competition's own page: the user's submission for it, and the one
    primary button (view the result, resume, or start) that follows from
    that submission and the competition's status. */
module CompetitionDetails {
  import opened Common
  import opened Listing
  import opened Competitions

  /** `(status || "upcoming").toLowerCase()`. */
  function DetailsStatus(c: Competition): (r: string)
    ensures c.status.None? || c.status.value == "" ==> r == "upcoming"
    ensures c.status.Some? && c.status.value != "" ==> r == Lower(c.status.value)
  {
    Lower(if c.status.Some? && c.status.value != "" then c.status.value else "upcoming")
  }

  /** The text of the start button: two dictionary keys and one fixed text. */
  datatype StartLabel = StartKey | CompletedKey | StartWhenLive

  datatype Action = ViewResult | Resume | Start(enabled: bool, caption: StartLabel)

  /** The primary button for competition `c` (whose id is `id`) given the
      user's submissions. */
  function PrimaryAction(c: Competition, subs: seq<Submission>, id: string): (r: Action)
    ensures var mine := FindSubmission(subs, id);
      && (r == ViewResult <==> mine.Some? && mine.value.status == "submitted")
      && (r == Resume <==> mine.Some? && mine.value.status == "started" && DetailsStatus(c) == "live")
    ensures r.Start? ==> (r.enabled <==> DetailsStatus(c) == "live")
    ensures r.Start? ==> (r.caption == StartKey <==> DetailsStatus(c) == "live")
    ensures r.Start? ==> (r.caption == CompletedKey <==> DetailsStatus(c) == "completed")
  {
    var mine := FindSubmission(subs, id);
    var status := DetailsStatus(c);
    if mine.Some? && mine.value.status == "submitted" then ViewResult
    else if mine.Some? && mine.value.status == "started" && status == "live" then Resume
    else Start(status == "live",
               if status == "live" then StartKey else if status == "completed" then CompletedKey else StartWhenLive)
  }

  /** The details page and the list agree on which competitions are live
      and which completed, although one defaults a missing status to
      "upcoming" and the other to the empty text. */
  lemma AgreesWithList(c: Competition)
    ensures DetailsStatus(c) == "live" <==> GetStatus(c) == LiveTab
    ensures DetailsStatus(c) == "completed" <==> GetStatus(c) == CompletedTab
  {
    if c.status.None? || c.status.value == "" {
      assert Lower("upcoming") == "upcoming";
      assert Lower("") == "";
    }
  }

  /** So without a submission, the start button is enabled exactly for the
      competitions whose card on the list carries a start link. */
  lemma StartEnabledMatchesListLink(c: Competition, id: string)
    ensures PrimaryAction(c, [], id).Start?
    ensures PrimaryAction(c, [], id).enabled <==> StartLink(c).Some?
  {
    AgreesWithList(c);
  }

  /** A started attempt is resumed only while the competition is live;
      once it is over the page falls back to the (disabled) start button. */
  lemma StartedAfterTheEnd(c: Competition, s: Submission)
    requires c.status == Some("completed") && s.status == "started"
    ensures PrimaryAction(c, [s], s.competitionId) == Start(false, CompletedKey)
  {
    assert Lower("completed") == "completed";
  }
}
