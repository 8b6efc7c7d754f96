/** The competitions list: every competition falls under exactly one of
    the live, upcoming and completed tabs, a fourth tab lists the user's
    own submissions, and only live competitions offer a start link. */
module Competitions {
  import opened Common
  import opened Listing

  datatype Tab = LiveTab | UpcomingTab | CompletedTab | MySubmissions

  /** `(status || "").toLowerCase()`: "live" and "completed" in any case
      pick their tab, anything else (none, "cancelled", ...) is upcoming. */
  function GetStatus(c: Competition): (r: Tab)
    ensures r != MySubmissions
    ensures r == LiveTab <==> c.status.Some? && Lower(c.status.value) == "live"
    ensures r == CompletedTab <==> c.status.Some? && Lower(c.status.value) == "completed"
  {
    var s := Lower(if c.status.Some? then c.status.value else "");
    if s == "live" then LiveTab else if s == "completed" then CompletedTab else UpcomingTab
  }

  /** Case does not matter; a missing or unknown status is upcoming. */
  lemma StatusSpellings(id: string)
    ensures GetStatus(Competition(id, None, None, Some("LIVE"), None)) == LiveTab
    ensures GetStatus(Competition(id, None, None, Some("Completed"), None)) == CompletedTab
    ensures GetStatus(Competition(id, None, None, Some("cancelled"), None)) == UpcomingTab
    ensures GetStatus(Competition(id, None, None, None, None)) == UpcomingTab
  {
    LowerIs("LIVE", "live");
    LowerIs("Completed", "completed");
    assert Lower("cancelled")[0] == 'c';
    assert Lower("") == "";
  }

  /** Lower-casing `s` gives `t` when it does so character by character. */
  lemma LowerIs(s: string, t: string)
    requires |s| == |t| && forall i :: 0 <= i < |s| ==> LowerChar(s[i]) == t[i]
    ensures Lower(s) == t
  {
  }

  function HasTab(tab: Tab): Competition -> bool
  {
    (c: Competition) => GetStatus(c) == tab
  }

  /** The cards under a tab: the competitions with that status, in order. */
  function Shown(list: seq<Competition>, tab: Tab): seq<Competition>
  {
    Filter(list, HasTab(tab))
  }

  /** A tab shows exactly the competitions of its status; the submissions
      tab shows none of them. */
  lemma ShownFacts(list: seq<Competition>, tab: Tab)
    ensures forall i :: 0 <= i < |Shown(list, tab)| ==> GetStatus(Shown(list, tab)[i]) == tab && Shown(list, tab)[i] in list
    ensures forall i :: 0 <= i < |list| && GetStatus(list[i]) == tab ==> list[i] in Shown(list, tab)
    ensures tab == MySubmissions ==> Shown(list, tab) == []
  {
    FilterMembers(list, HasTab(tab));
    assert forall i :: 0 <= i < |Shown(list, tab)| ==> HasTab(tab)(Shown(list, tab)[i]);
    if tab == MySubmissions {
      FilterNone(list, HasTab(tab));
    }
  }

  /** Each competition sits under exactly one of the three status tabs, so
      together they show as many cards as there are competitions. */
  lemma {:induction false} TabsPartition(list: seq<Competition>)
    ensures |Shown(list, LiveTab)| + |Shown(list, UpcomingTab)| + |Shown(list, CompletedTab)| == |list|
    decreases |list|
  {
    if list != [] {
      TabsPartition(list[1..]);
    }
  }

  /** The submissions are fetched only while their tab is open. */
  predicate SubmissionsEnabled(tab: Tab)
  {
    tab == MySubmissions
  }

  /** The competition cards and the submission cards never share a tab. */
  lemma ListOrSubmissions(list: seq<Competition>, tab: Tab)
    ensures SubmissionsEnabled(tab) ==> Shown(list, tab) == []
    ensures !SubmissionsEnabled(tab) ==> tab == LiveTab || tab == UpcomingTab || tab == CompletedTab
  {
    if SubmissionsEnabled(tab) {
      FilterNone(list, HasTab(tab));
    }
  }

  /** The start link, shown on live cards only. */
  function StartLink(c: Competition): (r: Option<string>)
    ensures r.Some? <==> GetStatus(c) == LiveTab
    ensures r.Some? ==> r.value == "/competitions/" + c.id + "/exam"
  {
    if GetStatus(c) == LiveTab then Some("/competitions/" + c.id + "/exam") else None
  }

  /** So no card under the upcoming or completed tab offers one. */
  lemma StartLinksOnlyLive(list: seq<Competition>, tab: Tab, i: nat)
    requires i < |Shown(list, tab)| && StartLink(Shown(list, tab)[i]).Some?
    ensures tab == LiveTab
  {
    ShownFacts(list, tab);
  }

  /** One of the user's competition submissions. */
  datatype Submission = Submission(
    id: string, competitionId: string, score: int, correctCount: int, wrongCount: int, status: string)

  function ForCompetition(id: string): Submission -> bool
  {
    (s: Submission) => s.competitionId == id
  }

  /** `find(s => s.competitionId === id)`: the first submission for the
      competition, if there is one. */
  function FindSubmission(subs: seq<Submission>, id: string): (r: Option<Submission>)
    ensures r.None? <==> forall j :: 0 <= j < |subs| ==> subs[j].competitionId != id
    ensures r.Some? ==> exists k :: 0 <= k < |subs| && subs[k] == r.value && r.value.competitionId == id
                                    && forall j :: 0 <= j < k ==> subs[j].competitionId != id
  {
    var k := FindFirst(subs, ForCompetition(id));
    if k.Some? then
      assert ForCompetition(id)(subs[k.value]);
      Some(subs[k.value])
    else None
  }
}
