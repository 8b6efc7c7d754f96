/** The live competition exam: a countdown read from the server's clock,
    answers kept per question id, and a submission that is sent at most
    once at a time, by the user or automatically when time runs out. */
module CompetitionExam {
  import opened Common
  import opened PaperModel

  /* ---------------------------------------------------------------- */
  /* The countdown                                                     */
  /* ---------------------------------------------------------------- */

  function Max(a: int, b: int): int { if a >= b then a else b }

  /** `Math.max(0, Math.floor((endMs - (localNow + offset)) / 1000))`. For
      a positive divisor Dafny's `/` is the floor of the exact quotient. */
  function SecondsLeft(endMs: int, localNowMs: int, offsetMs: int): (r: int)
    ensures r >= 0
    ensures var remaining := endMs - (localNowMs + offsetMs);
      && (remaining < 1000 <==> r == 0)
      && (r > 0 ==> r * 1000 <= remaining < (r + 1) * 1000)
  {
    Max(0, (endMs - (localNowMs + offsetMs)) / 1000)
  }

  /** With the end and the offset fixed, a later local time never shows
      more time left. */
  lemma SecondsLeftMonotone(endMs: int, offsetMs: int, t1: int, t2: int)
    requires t1 <= t2
    ensures SecondsLeft(endMs, t2, offsetMs) <= SecondsLeft(endMs, t1, offsetMs)
  {
    var a, b := endMs - (t1 + offsetMs), endMs - (t2 + offsetMs);
    assert b <= a;
  }

  /** The offset is the server's clock minus the local one at the start,
      so the countdown follows the server's clock: only the local time
      elapsed since the start matters, not the local clock's own error. */
  lemma CountdownFollowsServer(endMs: int, serverNowMs: int, localStartMs: int, elapsedMs: int, skewMs: int)
    ensures SecondsLeft(endMs, localStartMs + skewMs + elapsedMs, serverNowMs - (localStartMs + skewMs))
         == SecondsLeft(endMs, localStartMs + elapsedMs, serverNowMs - localStartMs)
    ensures SecondsLeft(endMs, localStartMs + elapsedMs, serverNowMs - localStartMs)
         == Max(0, (endMs - (serverNowMs + elapsedMs)) / 1000)
  {
  }

  /* ---------------------------------------------------------------- */
  /* Answers by question id                                            */
  /* ---------------------------------------------------------------- */

  /** The answers object: question id to chosen option index, entries in
      the order the ids were first answered. */
  type Answers = seq<(string, nat)>

  predicate DistinctKeys(a: Answers)
  {
    forall i, j :: 0 <= i < j < |a| ==> a[i].0 != a[j].0
  }

  /** `answers[id]`. */
  function Lookup(a: Answers, id: string): (r: Option<nat>)
    ensures r.None? <==> forall i :: 0 <= i < |a| ==> a[i].0 != id
    ensures r.Some? ==> exists i :: 0 <= i < |a| && a[i] == (id, r.value)
  {
    if a == [] then None
    else if a[0].0 == id then Some(a[0].1)
    else
      var r := Lookup(a[1..], id);
      assert forall i :: 1 <= i < |a| ==> a[i] == a[1..][i - 1];
      r
  }

  /** `{ ...prev, [id]: option }`: an id already answered keeps its place
      and takes the new option; a new id is added at the end. */
  function Put(a: Answers, id: string, option: nat): (r: Answers)
    ensures |r| == if Lookup(a, id).Some? then |a| else |a| + 1
    ensures forall i :: 0 <= i < |a| ==> r[i].0 == a[i].0
    ensures forall i :: 0 <= i < |a| && a[i].0 != id ==> r[i] == a[i]
    ensures Lookup(a, id).None? ==> r[|a|] == (id, option)
  {
    if a == [] then [(id, option)]
    else if a[0].0 == id then [(id, option)] + a[1..]
    else [a[0]] + Put(a[1..], id, option)
  }

  /** Choosing an option for a question records it as that question's
      answer, touches no other question's answer, and keeps one entry per
      question. */
  lemma PutFacts(a: Answers, id: string, option: nat)
    requires DistinctKeys(a)
    ensures DistinctKeys(Put(a, id, option))
    ensures Lookup(Put(a, id, option), id) == Some(option)
    ensures forall other :: other != id ==> Lookup(Put(a, id, option), other) == Lookup(a, other)
  {
    PutDistinct(a, id, option);
    forall k ensures Lookup(Put(a, id, option), k) == if k == id then Some(option) else Lookup(a, k) {
      PutLookup(a, id, option, k);
    }
  }

  lemma {:induction false} PutLookup(a: Answers, id: string, option: nat, k: string)
    ensures Lookup(Put(a, id, option), k) == if k == id then Some(option) else Lookup(a, k)
    decreases |a|
  {
    if a != [] && a[0].0 != id {
      var r := Put(a, id, option);
      assert r[0] == a[0] && r[1..] == Put(a[1..], id, option);
      PutLookup(a[1..], id, option, k);
    } else if a != [] {
      var r := Put(a, id, option);
      assert r[0] == (id, option) && r[1..] == a[1..];
    }
  }

  lemma PutDistinct(a: Answers, id: string, option: nat)
    requires DistinctKeys(a)
    ensures DistinctKeys(Put(a, id, option))
  {
    var r := Put(a, id, option);
    forall i, j | 0 <= i < j < |r| ensures r[i].0 != r[j].0 {
      assert r[i].0 == a[i].0;
      if j >= |a| {
        assert Lookup(a, id).None? && r[j].0 == id;
      }
    }
  }

  /** In a list with distinct ids, the entry for an id is the one found. */
  lemma LookupAtDistinct(a: Answers, i: nat, id: string)
    requires DistinctKeys(a) && i < |a| && a[i].0 == id
    ensures Lookup(a, id) == Some(a[i].1)
  {
  }

  lemma {:induction false} PutAt(a: Answers, id: string, option: nat, i: nat)
    requires i < |a| && a[i].0 == id && DistinctKeys(a)
    ensures Put(a, id, option)[i] == (id, option)
    decreases |a|
  {
    if a[0].0 != id {
      PutAt(a[1..], id, option, i - 1);
    }
  }

  datatype AnswerEntry = AnswerEntry(questionId: string, selectedOptionId: nat)

  /** `Object.entries(answers).map(...)`: one entry per answered question. */
  function Payload(a: Answers): (r: seq<AnswerEntry>)
    ensures |r| == |a|
    ensures forall i :: 0 <= i < |r| ==> r[i] == AnswerEntry(a[i].0, a[i].1)
  {
    seq(|a|, i requires 0 <= i < |a| => AnswerEntry(a[i].0, a[i].1))
  }

  /** The payload carries each answered question exactly once, with the
      option chosen last. */
  lemma PayloadFacts(a: Answers, id: string)
    requires DistinctKeys(a)
    ensures forall i, j :: 0 <= i < j < |Payload(a)| ==> Payload(a)[i].questionId != Payload(a)[j].questionId
    ensures Lookup(a, id).Some? <==> exists i :: 0 <= i < |Payload(a)| && Payload(a)[i].questionId == id
    ensures forall i :: 0 <= i < |Payload(a)| && Payload(a)[i].questionId == id ==> Lookup(a, id) == Some(Payload(a)[i].selectedOptionId)
  {
    forall i | 0 <= i < |a| && a[i].0 == id ensures Lookup(a, id) == Some(a[i].1) {
      LookupAtDistinct(a, i, id);
    }
    if Lookup(a, id).Some? {
      var i :| 0 <= i < |a| && a[i] == (id, Lookup(a, id).value);
      assert Payload(a)[i].questionId == id;
    }
  }

  /* ---------------------------------------------------------------- */
  /* The exam page                                                     */
  /* ---------------------------------------------------------------- */

  datatype ExamQuestion = ExamQuestion(id: string, content: Option<MultiLangContent>, options: seq<QuestionOption>)

  /** What the start request returns: the server's clock, the end, the
      seconds left, the questions and the languages offered. */
  datatype StartData = StartData(
    serverNowMs: int, endMs: int, timeLeftSeconds: int,
    questions: seq<ExamQuestion>, languagesAvailable: Option<seq<string>>)

  datatype SubmitRequest = SubmitRequest(competitionId: string, answers: seq<AnswerEntry>)

  /** `languagesAvailable?.[0] || "en"`. */
  function StartLanguage(d: StartData): (r: string)
    ensures r != ""
    ensures d.languagesAvailable.Some? && |d.languagesAvailable.value| > 0 && d.languagesAvailable.value[0] != ""
            ==> r == d.languagesAvailable.value[0]
  {
    if d.languagesAvailable.Some? && |d.languagesAvailable.value| > 0 && d.languagesAvailable.value[0] != ""
    then d.languagesAvailable.value[0] else "en"
  }

  datatype PaletteItem = PaletteItem(index: nat, answered: bool)

  class ExamPage {
    const competitionId: string
    var started: bool
    var endMs: int
    var offsetMs: int
    var questions: seq<ExamQuestion>
    var index: nat
    var answers: Answers
    var timeLeft: int
    var language: string
    var paletteOpen: bool
    /** The one-shot guard: set while a submission is out or has landed. */
    var hasSubmitted: bool
    /** Whether the submission last sent was the automatic one: the `auto`
        argument of the `handleSubmit` call whose request is out. */
    var pendingAuto: bool
    /** Every submission sent, oldest first. */
    var requests: seq<SubmitRequest>
    /** "Submission failed" alerts shown. */
    var alerts: nat
    /** Where the page navigated, once a submission was accepted. */
    var location: Option<string>
    /** Submissions the server refused. */
    ghost var failures: nat

    ghost predicate Valid()
      reads this
    {
      && DistinctKeys(answers)
      && (if |questions| == 0 then index == 0 else index < |questions|)
      && |requests| == failures + (if hasSubmitted then 1 else 0)
      && (location.Some? ==> hasSubmitted)
    }

    constructor (id: string)
      ensures Valid() && competitionId == id && !started
      ensures questions == [] && index == 0 && answers == [] && timeLeft == 0 && language == "en"
      ensures !paletteOpen && !hasSubmitted && !pendingAuto && requests == [] && alerts == 0 && location.None?
    {
      competitionId := id;
      started := false;
      endMs := 0;
      offsetMs := 0;
      questions := [];
      index := 0;
      answers := [];
      timeLeft := 0;
      language := "en";
      paletteOpen := false;
      hasSubmitted := false;
      pendingAuto := false;
      requests := [];
      alerts := 0;
      location := None;
      failures := 0;
    }

    /** The start request answered at local time `localNowMs`: the offset
        to the server's clock is fixed here, once. */
    method Started(d: StartData, localNowMs: int)
      requires Valid() && !started
      modifies this
      ensures Valid() && started
      ensures offsetMs == d.serverNowMs - localNowMs && endMs == d.endMs
      ensures questions == d.questions && timeLeft == d.timeLeftSeconds && language == StartLanguage(d)
      ensures index == 0
      ensures answers == old(answers) && hasSubmitted == old(hasSubmitted) && requests == old(requests)
      ensures pendingAuto == old(pendingAuto)
      ensures alerts == old(alerts) && location == old(location) && paletteOpen == old(paletteOpen)
    {
      started := true;
      questions := d.questions;
      offsetMs := d.serverNowMs - localNowMs;
      endMs := d.endMs;
      timeLeft := d.timeLeftSeconds;
      language := StartLanguage(d);
      index := 0;
    }

    /** The half-second interval: the time left, read from the server's
        clock. */
    method Tick(localNowMs: int)
      requires Valid() && started
      modifies this
      ensures Valid()
      ensures timeLeft == SecondsLeft(endMs, localNowMs, offsetMs) && timeLeft >= 0
      ensures started == old(started) && endMs == old(endMs) && offsetMs == old(offsetMs)
      ensures questions == old(questions) && index == old(index) && answers == old(answers)
      ensures language == old(language) && paletteOpen == old(paletteOpen) && hasSubmitted == old(hasSubmitted)
      ensures pendingAuto == old(pendingAuto)
      ensures requests == old(requests) && alerts == old(alerts) && location == old(location)
    {
      timeLeft := SecondsLeft(endMs, localNowMs, offsetMs);
    }

    /** `handleSubmit(auto)`: nothing while a submission is out or
        accepted; otherwise the guard is set and the answers are sent. */
    method Submit(auto: bool) returns (sent: bool)
      requires Valid()
      modifies this
      ensures Valid()
      ensures sent <==> !old(hasSubmitted)
      ensures hasSubmitted
      ensures sent ==> requests == old(requests) + [SubmitRequest(competitionId, Payload(answers))]
      ensures !sent ==> requests == old(requests)
      ensures pendingAuto == if sent then auto else old(pendingAuto)
      ensures started == old(started) && endMs == old(endMs) && offsetMs == old(offsetMs)
      ensures questions == old(questions) && index == old(index) && answers == old(answers) && timeLeft == old(timeLeft)
      ensures language == old(language) && paletteOpen == old(paletteOpen)
      ensures alerts == old(alerts) && location == old(location)
    {
      if hasSubmitted {
        return false;
      }
      var formatted := Payload(answers);
      hasSubmitted := true;
      pendingAuto := auto;
      requests := requests + [SubmitRequest(competitionId, formatted)];
      sent := true;
    }

    /** The effect on the time left: once started and at exactly zero,
        `handleSubmit(true)`. */
    method AutoSubmit() returns (sent: bool)
      requires Valid()
      modifies this
      ensures Valid()
      ensures sent <==> old(started) && old(timeLeft) == 0 && !old(hasSubmitted)
      ensures sent ==> hasSubmitted && pendingAuto && requests == old(requests) + [SubmitRequest(competitionId, Payload(answers))]
      ensures !sent ==> hasSubmitted == old(hasSubmitted) && pendingAuto == old(pendingAuto) && requests == old(requests)
      ensures started == old(started) && questions == old(questions) && index == old(index)
      ensures answers == old(answers) && timeLeft == old(timeLeft) && alerts == old(alerts) && location == old(location)
    {
      sent := false;
      if !started || timeLeft != 0 {
        return;
      }
      sent := Submit(true);
    }

    /** The server accepted the submission: on to the leaderboard. */
    method SubmitSucceeded()
      requires Valid() && hasSubmitted
      modifies this
      ensures Valid() && hasSubmitted
      ensures location == Some("/competitions/" + competitionId + "/leaderboard")
      ensures requests == old(requests) && answers == old(answers) && alerts == old(alerts)
      ensures pendingAuto == old(pendingAuto)
    {
      location := Some("/competitions/" + competitionId + "/leaderboard");
    }

    /** The server refused it: the guard is lifted so that it can be sent
        again, and the user is told unless the refused submission was the
        automatic one. */
    method SubmitFailed()
      requires Valid() && hasSubmitted && location.None?
      modifies this
      ensures Valid() && !hasSubmitted && pendingAuto == old(pendingAuto)
      ensures alerts == if old(pendingAuto) then old(alerts) else old(alerts) + 1
      ensures requests == old(requests) && answers == old(answers) && location == old(location)
      ensures started == old(started) && timeLeft == old(timeLeft) && index == old(index) && questions == old(questions)
    {
      hasSubmitted := false;
      failures := failures + 1;
      if !pendingAuto {
        alerts := alerts + 1;
      }
    }

    /** Choosing option `option` of the current question. */
    method Choose(option: nat)
      requires Valid() && index < |questions| && option < |questions[index].options|
      modifies this
      ensures Valid()
      ensures questions == old(questions) && index == old(index) && timeLeft == old(timeLeft)
      ensures answers == Put(old(answers), questions[index].id, option)
      ensures Lookup(answers, questions[index].id) == Some(option)
      ensures forall other :: other != questions[index].id ==> Lookup(answers, other) == Lookup(old(answers), other)
      ensures hasSubmitted == old(hasSubmitted) && requests == old(requests) && location == old(location)
      ensures pendingAuto == old(pendingAuto)
    {
      PutFacts(answers, questions[index].id, option);
      answers := Put(answers, questions[index].id, option);
    }

    /** `Math.max(0, prev - 1)`. */
    method Previous()
      requires Valid()
      modifies this
      ensures Valid()
      ensures index == if old(index) == 0 then 0 else old(index) - 1
      ensures questions == old(questions) && answers == old(answers) && timeLeft == old(timeLeft)
      ensures hasSubmitted == old(hasSubmitted) && requests == old(requests) && location == old(location)
      ensures pendingAuto == old(pendingAuto)
    {
      index := Max(0, index - 1);
    }

    /** `Math.min(questions.length - 1, prev + 1)`, offered on every
        question but the last. */
    method Next()
      requires Valid() && |questions| > 0
      modifies this
      ensures Valid()
      ensures index == if old(index) + 1 < |questions| then old(index) + 1 else |questions| - 1
      ensures questions == old(questions) && answers == old(answers) && timeLeft == old(timeLeft)
      ensures hasSubmitted == old(hasSubmitted) && requests == old(requests) && location == old(location)
      ensures pendingAuto == old(pendingAuto)
    {
      index := if |questions| - 1 <= index + 1 then |questions| - 1 else index + 1;
    }

    /** A palette button: go to question `i` and close the palette. */
    method JumpTo(i: nat)
      requires Valid() && i < |questions|
      modifies this
      ensures Valid() && index == i && !paletteOpen
      ensures questions == old(questions) && answers == old(answers) && timeLeft == old(timeLeft)
      ensures hasSubmitted == old(hasSubmitted) && requests == old(requests) && location == old(location)
      ensures pendingAuto == old(pendingAuto)
    {
      index := i;
      paletteOpen := false;
    }

    method SelectLanguage(l: string)
      requires Valid()
      modifies this
      ensures Valid() && language == l
      ensures questions == old(questions) && index == old(index) && answers == old(answers)
      ensures hasSubmitted == old(hasSubmitted) && requests == old(requests) && location == old(location)
      ensures pendingAuto == old(pendingAuto)
    {
      language := l;
    }

    /** `questionStatus`: a question counts as answered exactly when the
        answers hold an entry for its id. */
    function QuestionStatus(): (r: seq<PaletteItem>)
      reads this
      ensures |r| == |questions|
      ensures forall i :: 0 <= i < |r| ==> r[i].index == i && (r[i].answered <==> Lookup(answers, questions[i].id).Some?)
    {
      var qs, a := questions, answers;
      seq(|qs|, i requires 0 <= i < |qs| => PaletteItem(i, Lookup(a, qs[i].id).Some?))
    }
  }

  /** Pressing Submit twice sends one submission: the second press finds
      the guard set. */
  method DoubleSubmitSendsOnce(id: string) returns (first: bool, second: bool, count: nat)
    ensures first && !second && count == 1
  {
    var page := new ExamPage(id);
    first := page.Submit(false);
    second := page.Submit(false);
    count := |page.requests|;
  }

  /** A refused automatic submission is retried by hand: the guard lifted,
      the next press sends again, and no alert was shown for the automatic
      one; when the manual retry is refused too, it raises one alert. */
  method RetryAfterFailure(d: StartData, now: int) returns (alerts: nat, count: nat, alertsAfterManual: nat)
    requires d.timeLeftSeconds == 0
    ensures alerts == 0 && count == 2 && alertsAfterManual == 1
  {
    var page := new ExamPage("c");
    page.Started(d, now);
    var auto := page.AutoSubmit();
    page.SubmitFailed();
    var manual := page.Submit(false);
    alerts := page.alerts;
    count := |page.requests|;
    page.SubmitFailed();
    alertsAfterManual := page.alerts;
  }
}
