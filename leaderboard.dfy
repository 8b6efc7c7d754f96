/** A competition's leaderboard: ten rows a page, the pages shown one after
    another, and the user's own result above them. */
module Leaderboard {
  import opened Common
  import opened Listing
  import opened Competitions
  import opened CompetitionDetails

  datatype Entry = Entry(
    rank: int, userId: string, name: string, score: int, correctCount: Option<int>, wrongCount: Option<int>)

  const LeaderboardPageSize: nat := 10

  function NextLeaderboardPage(pages: seq<seq<Entry>>): (r: Option<nat>)
    ensures r.Some? <==> |pages| > 0 && |pages[|pages| - 1]| >= LeaderboardPageSize
    ensures r.Some? ==> r.value == |pages| + 1
  {
    NextPage(pages, LeaderboardPageSize)
  }

  /** Every fetched row, page after page. */
  function Rows(pages: seq<seq<Entry>>): seq<Entry>
  {
    Loaded(pages)
  }

  /** Row `i` of page `j` is shown at its running offset, and a newly
      fetched page only adds rows at the end. */
  lemma RowsInOrder(pages: seq<seq<Entry>>, next: seq<Entry>, j: nat, i: nat)
    requires j < |pages| && i < |pages[j]|
    ensures SumLengths(pages[..j]) + i < |Rows(pages)| && Rows(pages)[SumLengths(pages[..j]) + i] == pages[j][i]
    ensures Rows(pages + [next]) == Rows(pages) + next
  {
    LoadedFacts(pages, next, j, i);
  }

  /** "Submitted" for a submitted attempt, "In Progress" for anything else. */
  function OwnStatusLabel(s: Submission): (r: string)
    ensures r == "Submitted" <==> s.status == "submitted"
    ensures r != "Submitted" ==> r == "In Progress"
  {
    if s.status == "submitted" then "Submitted" else "In Progress"
  }

  /** The own-result box: shown when a submission for this competition
      exists, with its label. */
  function OwnResult(subs: seq<Submission>, id: string): (r: Option<(Submission, string)>)
    ensures r.Some? <==> exists j :: 0 <= j < |subs| && subs[j].competitionId == id
    ensures r.Some? ==> r.value.0.competitionId == id && r.value.1 == OwnStatusLabel(r.value.0)
    ensures r.Some? ==> exists k :: 0 <= k < |subs| && subs[k] == r.value.0
                                    && forall j :: 0 <= j < k ==> subs[j].competitionId != id
  {
    var mine := FindSubmission(subs, id);
    if mine.Some? then Some((mine.value, OwnStatusLabel(mine.value))) else None
  }

  /** The leaderboard and the details page look up the same submission, so
      the box reads "Submitted" exactly when the details page offers to
      view the result. */
  lemma AgreesWithDetails(c: Competition, subs: seq<Submission>, id: string)
    ensures PrimaryAction(c, subs, id) == ViewResult <==> OwnResult(subs, id).Some? && OwnResult(subs, id).value.1 == "Submitted"
  {
  }

  /** `correctCount ?? 0` and `wrongCount ?? 0`: a missing count reads 0,
      a present one is shown as it is. */
  function ShownCounts(e: Entry): (r: (int, int))
    ensures e.correctCount.Some? ==> r.0 == e.correctCount.value
    ensures e.correctCount.None? ==> r.0 == 0
    ensures e.wrongCount.Some? ==> r.1 == e.wrongCount.value
    ensures e.wrongCount.None? ==> r.1 == 0
  {
    (if e.correctCount.Some? then e.correctCount.value else 0,
     if e.wrongCount.Some? then e.wrongCount.value else 0)
  }

  /** The heading: the competition's title, or "Competition". */
  function Heading(c: Option<Competition>): (r: string)
    ensures r != ""
    ensures c.Some? && c.value.title.Some? && c.value.title.value != "" ==> r == c.value.title.value
    ensures c.None? || c.value.title.None? || c.value.title.value == "" ==> r == "Competition"
  {
    if c.Some? && c.value.title.Some? && c.value.title.value != "" then c.value.title.value else "Competition"
  }
}
