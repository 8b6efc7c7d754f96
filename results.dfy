/** The results page: two tabs, one listing the user's paper submissions
    and one their competition submissions, each entry linking back to
    the paper or the competition. */
module Results {
  import opened Common

  /** "Previous paper", "Latest paper" and "Custom test" for the three
      paper types, "Test" for any other. */
  function PaperTypeLabel(paperType: string): (r: string)
    ensures paperType == "REAL_EXAM" <==> r == "Previous paper"
    ensures paperType == "LATEST_PAPER" <==> r == "Latest paper"
    ensures paperType == "CUSTOM_PAPER" <==> r == "Custom test"
    ensures paperType != "REAL_EXAM" && paperType != "LATEST_PAPER" && paperType != "CUSTOM_PAPER" <==> r == "Test"
  {
    match paperType
    case "REAL_EXAM" => "Previous paper"
    case "LATEST_PAPER" => "Latest paper"
    case "CUSTOM_PAPER" => "Custom test"
    case _ => "Test"
  }

  datatype PaperEntry = PaperEntry(
    id: string, paperId: string, paperType: string, paperTitle: Option<string>, score: real, totalMarks: real)

  /** JavaScript's rendering of a number as text, which is not part of this
      model: scores may be fractional (quarter-mark penalties), so they are
      reals shown through this function. */
  type NumberText = real -> string

  /** A rendered number is not empty and has no white space at either end. */
  predicate Shows(show: NumberText, x: real)
  {
    |show(x)| > 0 && !IsSpace(show(x)[0]) && !IsSpace(show(x)[|show(x)| - 1])
  }

  const CustomSuffix: string := "?custom=1"

  /** Where a paper entry leads: the paper again, marked as a custom one
      for custom papers. */
  function PaperHref(e: PaperEntry): (r: string)
    ensures StartsWith(r, "/question-paper/" + e.paperId)
    ensures e.paperType == "CUSTOM_PAPER" ==> r == "/question-paper/" + e.paperId + CustomSuffix
    ensures e.paperType != "CUSTOM_PAPER" ==> r == "/question-paper/" + e.paperId
  {
    var base := "/question-paper/" + e.paperId;
    assert StartsWith(base + CustomSuffix, base) by { assert (base + CustomSuffix)[..|base|] == base; }
    if e.paperType == "CUSTOM_PAPER" then base + CustomSuffix else base
  }

  /** A paper id without '?' shows which kind of link it is: the custom
      marker is there exactly for custom papers. */
  lemma CustomMarkerOnlyOnCustom(e: PaperEntry)
    requires '?' !in e.paperId
    ensures EndsWith(PaperHref(e), CustomSuffix) <==> e.paperType == "CUSTOM_PAPER"
  {
    var base := "/question-paper/" + e.paperId;
    assert forall i :: 0 <= i < |base| ==> base[i] != '?' by {
      assert forall i :: 16 <= i < |base| ==> base[i] == e.paperId[i - 16];
    }
    assert !EndsWith(base, CustomSuffix) by {
      assert CustomSuffix[0] == '?';
    }
    assert e.paperType == "CUSTOM_PAPER" ==> EndsWith(base + CustomSuffix, CustomSuffix) by {
      assert (base + CustomSuffix)[|base|..] == CustomSuffix;
    }
  }

  function PaperTitle(e: PaperEntry): (r: string)
    ensures r != ""
    ensures e.paperTitle.Some? && e.paperTitle.value != "" ==> r == e.paperTitle.value
    ensures e.paperTitle.None? || e.paperTitle.value == "" ==> r == "Test"
  {
    if e.paperTitle.Some? && e.paperTitle.value != "" then e.paperTitle.value else "Test"
  }

  /** `` `${score} / ${totalMarks}` ``, untrimmed: the same text the
      competition tab shows for a submission whose total is known. */
  function PaperScoreText(e: PaperEntry, show: NumberText): (r: string)
    requires Shows(show, e.score) && Shows(show, e.totalMarks)
    ensures r == ScoreText(e.score, Some(e.totalMarks), show)
  {
    show(e.score) + " / " + show(e.totalMarks)
  }

  /** The competition as the submission list embeds it. */
  datatype CompetitionMeta = CompetitionMeta(id: Option<string>, title: Option<string>, totalMarks: Option<real>)

  datatype CompetitionEntry = CompetitionEntry(
    id: string, competitionId: string, score: real, status: string,
    timeTaken: Option<int>, competition: Option<CompetitionMeta>)

  /** `competition?.title || "Competition"`. */
  function CompetitionEntryTitle(e: CompetitionEntry): (r: string)
    ensures r != ""
    ensures e.competition.Some? && e.competition.value.title.Some? && e.competition.value.title.value != "" ==>
      r == e.competition.value.title.value
    ensures e.competition.None? || e.competition.value.title.None? || e.competition.value.title.value == "" ==>
      r == "Competition"
  {
    if e.competition.Some? && e.competition.value.title.Some? && e.competition.value.title.value != ""
    then e.competition.value.title.value else "Competition"
  }

  /** `competition?._id || competitionId`. */
  function CompetitionHref(e: CompetitionEntry): (r: string)
    ensures e.competition.Some? && e.competition.value.id.Some? && e.competition.value.id.value != "" ==>
      r == "/competitions/" + e.competition.value.id.value
    ensures e.competition.None? || e.competition.value.id.None? || e.competition.value.id.value == "" ==>
      r == "/competitions/" + e.competitionId
  {
    "/competitions/" +
      if e.competition.Some? && e.competition.value.id.Some? && e.competition.value.id.value != "" then e.competition.value.id.value
      else e.competitionId
  }

  /** `` `${score} / ${totalMarks ?? ""}`.trim() ``: with no total the text
      ends in the slash. */
  function ScoreText(score: real, totalMarks: Option<real>, show: NumberText): (r: string)
    requires Shows(show, score) && (totalMarks.Some? ==> Shows(show, totalMarks.value))
    ensures totalMarks.None? ==> r == show(score) + " /"
    ensures totalMarks.Some? ==> r == show(score) + " / " + show(totalMarks.value)
  {
    var raw := show(score) + " / " + (if totalMarks.Some? then show(totalMarks.value) else "");
    TrimOfDecorated(raw);
    Trim(raw)
  }

  /** What `trim` makes of a score line: it starts with the score and ends
      with a digit or a slash, or else with one space after the slash. */
  lemma TrimOfDecorated(s: string)
    requires |s| >= 3 && !IsSpace(s[0])
    requires !IsSpace(s[|s| - 1]) || (s[|s| - 2] == '/' && s[|s| - 1] == ' ')
    ensures !IsSpace(s[|s| - 1]) ==> Trim(s) == s
    ensures IsSpace(s[|s| - 1]) ==> Trim(s) == s[..|s| - 1]
  {
    assert TrimStart(s) == s;
    if IsSpace(s[|s| - 1]) {
      assert TrimEnd(s) == TrimEnd(s[..|s| - 1]);
    }
  }

  /** Shown after the date, only for submitted attempts. */
  function ScoreSuffix(e: CompetitionEntry, show: NumberText): (r: Option<string>)
    requires Shows(show, e.score)
    requires e.competition.Some? && e.competition.value.totalMarks.Some? ==> Shows(show, e.competition.value.totalMarks.value)
    ensures r.Some? <==> e.status == "submitted"
    ensures r.Some? ==> r.value == ScoreText(e.score, if e.competition.Some? then e.competition.value.totalMarks else None, show)
  {
    if e.status == "submitted" then
      Some(ScoreText(e.score, if e.competition.Some? then e.competition.value.totalMarks else None, show))
    else None
  }

  /** `Math.round((timeTaken || 0) / 60)`: seconds to the nearest minute,
      halves up. */
  function MinutesTaken(e: CompetitionEntry): (r: int)
    ensures var secs := if e.timeTaken.Some? then e.timeTaken.value else 0;
      60 * r - 30 <= secs < 60 * r + 30
  {
    var secs := if e.timeTaken.Some? then e.timeTaken.value else 0;
    RoundHalfUp(secs as real / 60.0)
  }

  /* ---------------------------------------------------------------- */
  /* The two tabs                                                      */
  /* ---------------------------------------------------------------- */

  datatype ResultsTab = PapersTab | CompetitionsTab

  /** One query's state: loading, failed, or done with its list. */
  datatype Query<T> = Query(isLoading: bool, isError: bool, data: Option<seq<T>>)

  datatype View =
    | Loading
    | Failed
    | NoResults
    | PaperList(papers: seq<PaperEntry>)
    | CompetitionList(competitions: seq<CompetitionEntry>)

  function ListOrEmpty<T>(data: Option<seq<T>>): seq<T>
  {
    if data.Some? then data.value else []
  }

  /** What the page shows: the loading, error and list states all come
      from the open tab's query. */
  function ResultsView(tab: ResultsTab, papers: Query<PaperEntry>, competitions: Query<CompetitionEntry>): (r: View)
    ensures tab == PapersTab ==> !r.CompetitionList?
    ensures tab == CompetitionsTab ==> !r.PaperList?
    ensures r == Loading <==> (if tab == PapersTab then papers.isLoading else competitions.isLoading)
    ensures r.PaperList? ==> papers.data.Some? && r.papers == papers.data.value && |r.papers| > 0
    ensures r.CompetitionList? ==> competitions.data.Some? && r.competitions == competitions.data.value && |r.competitions| > 0
  {
    if tab == PapersTab then
      if papers.isLoading then Loading
      else if papers.isError then Failed
      else if |ListOrEmpty(papers.data)| == 0 then NoResults
      else PaperList(papers.data.value)
    else
      if competitions.isLoading then Loading
      else if competitions.isError then Failed
      else if |ListOrEmpty(competitions.data)| == 0 then NoResults
      else CompetitionList(competitions.data.value)
  }

  /** The tab that is not open has no say in what is shown. */
  lemma OtherTabIgnored(papers: Query<PaperEntry>, papers2: Query<PaperEntry>,
                        competitions: Query<CompetitionEntry>, competitions2: Query<CompetitionEntry>)
    ensures ResultsView(PapersTab, papers, competitions) == ResultsView(PapersTab, papers, competitions2)
    ensures ResultsView(CompetitionsTab, papers, competitions) == ResultsView(CompetitionsTab, papers2, competitions)
  {
  }
}
