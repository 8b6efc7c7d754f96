/** The "create test" page: the form for a custom practice paper, the
    free-plan limits (two papers a day, at most 25 questions) and what
    happens when the server answers. */
module CreateTest {
  import opened Common
  import opened CustomPapers

  const QuestionCounts: seq<int> := [10, 25, 50, 100]
  const Durations: seq<int> := [15, 30, 60, 120]
  const Difficulties: seq<string> := ["EASY", "MEDIUM", "HARD"]

  /** The free plan: no plan name, an empty one, or "free" in any case. */
  predicate IsFreeUser(planName: Option<string>)
  {
    planName.None? || planName.value == "" || Lower(planName.value) == "free"
  }

  lemma FreePlanSpellings()
    ensures IsFreeUser(Some("FREE")) && IsFreeUser(Some("Free")) && IsFreeUser(None)
    ensures !IsFreeUser(Some("pro")) && !IsFreeUser(Some("free "))
  {
    assert Lower("FREE") == "free";
    assert Lower("Free") == "free";
    assert Lower("pro")[0] == 'p';
  }

  /** The question counts the form offers: the first two on the free plan. */
  function QuestionOptions(free: bool): (r: seq<int>)
    ensures free ==> r == [10, 25]
    ensures !free ==> r == QuestionCounts
    ensures forall i :: 0 <= i < |r| ==> r[i] in QuestionCounts
  {
    if free then QuestionCounts[..2] else QuestionCounts
  }

  /** An empty title becomes "<subject> - <difficulty> Level". */
  function PaperTitle(title: string, subject: string, difficulty: string): (r: string)
    ensures title != "" ==> r == title
    ensures title == "" ==> r == subject + " - " + difficulty + " Level"
  {
    if title != "" then title else subject + " - " + difficulty + " Level"
  }

  datatype CreateRequest = CreateRequest(
    title: string, subject: string, questionCount: int, duration: int, difficulty: string)

  /** The two daily papers of the free plan. */
  const FreeDailyLimit: nat := 2

  class CreateTestForm {
    const planName: Option<string>
    var title: string
    var subject: string
    var questionCount: int
    var duration: int
    var difficulty: string
    var error: string
    var limitReached: bool
    /** Every creation request sent, oldest first. */
    var requests: seq<CreateRequest>
    /** The page navigated to, once a created paper was saved. */
    var location: Option<string>

    ghost predicate Valid()
      reads this
    {
      && questionCount in QuestionOptions(IsFreeUser(planName))
      && duration in Durations
      && difficulty in Difficulties
    }

    constructor (plan: Option<string>)
      ensures Valid() && planName == plan
      ensures title == "" && subject == "" && questionCount == 25 && duration == 30 && difficulty == "EASY"
      ensures error == "" && !limitReached && requests == [] && location.None?
    {
      planName := plan;
      title := "";
      subject := "";
      questionCount := 25;
      duration := 30;
      difficulty := "EASY";
      error := "";
      limitReached := false;
      requests := [];
      location := None;
    }

    /** Once the subjects load, the first one is chosen if none is yet. */
    method SubjectsLoaded(names: seq<string>)
      requires Valid()
      modifies this
      ensures Valid()
      ensures subject == if old(subject) == "" && |names| > 0 then names[0] else old(subject)
      ensures title == old(title) && questionCount == old(questionCount) && duration == old(duration)
      ensures difficulty == old(difficulty) && error == old(error) && limitReached == old(limitReached)
      ensures requests == old(requests) && location == old(location)
    {
      if subject == "" && |names| > 0 {
        subject := names[0];
      }
    }

    /** The question-count select offers only the plan's counts. */
    method ChooseQuestionCount(n: int)
      requires Valid() && n in QuestionOptions(IsFreeUser(planName))
      modifies this
      ensures Valid() && questionCount == n
      ensures title == old(title) && subject == old(subject) && duration == old(duration)
      ensures difficulty == old(difficulty) && error == old(error) && limitReached == old(limitReached)
      ensures requests == old(requests) && location == old(location)
    {
      questionCount := n;
    }

    /** The submit button. `store` is the browser's custom-paper store and
        `startOfToday` the local midnight; the store is consulted only on
        the free plan. */
    method Create(store: CustomPaperStore, startOfToday: int)
      requires Valid() && store.Valid()
      modifies this
      ensures Valid()
      ensures subject == "" ==>
        error == "Select a subject." && !limitReached && requests == old(requests)
      ensures subject != "" && IsFreeUser(planName) && store.CreatedToday(startOfToday) >= FreeDailyLimit ==>
        error == "" && limitReached && requests == old(requests)
      ensures subject != "" && (!IsFreeUser(planName) || store.CreatedToday(startOfToday) < FreeDailyLimit) ==>
        && error == "" && !limitReached
        && requests == old(requests) + [CreateRequest(PaperTitle(title, subject, difficulty), subject, questionCount, duration, difficulty)]
      ensures |requests| > |old(requests)| && IsFreeUser(planName) ==> requests[|requests| - 1].questionCount <= 25
      ensures title == old(title) && subject == old(subject) && questionCount == old(questionCount)
      ensures duration == old(duration) && difficulty == old(difficulty) && location == old(location)
    {
      error := "";
      limitReached := false;
      if subject == "" {
        error := "Select a subject.";
        return;
      }
      if IsFreeUser(planName) {
        var createdToday := store.CreatedToday(startOfToday);
        if createdToday >= FreeDailyLimit {
          limitReached := true;
          return;
        }
      }
      var paperTitle := PaperTitle(title, subject, difficulty);
      requests := requests + [CreateRequest(paperTitle, subject, questionCount, duration, difficulty)];
    }

    /** The server refused: 403 means the plan's limit, anything else a
        generic failure. */
    method CreateFailed(status: Option<int>)
      requires Valid()
      modifies this
      ensures Valid()
      ensures status == Some(403) ==> limitReached && error == old(error)
      ensures status != Some(403) ==> error == "Failed to create custom test." && limitReached == old(limitReached)
      ensures title == old(title) && subject == old(subject) && questionCount == old(questionCount)
      ensures duration == old(duration) && difficulty == old(difficulty)
      ensures requests == old(requests) && location == old(location)
    {
      if status == Some(403) {
        limitReached := true;
      } else {
        error := "Failed to create custom test.";
      }
    }

    /** The server created the paper: it is kept in the store and the page
        moves on to the test list. */
    method CreateSucceeded(store: CustomPaperStore, paper: CustomPaper)
      requires Valid() && store.Valid()
      modifies this, store
      ensures Valid() && store.Valid()
      ensures store.GetById(paper.id) == Some(paper)
      ensures forall k :: k != paper.id ==> store.GetById(k) == old(store.GetById(k))
      ensures location == Some("/test")
      ensures title == old(title) && subject == old(subject) && questionCount == old(questionCount)
      ensures duration == old(duration) && difficulty == old(difficulty)
      ensures error == old(error) && limitReached == old(limitReached) && requests == old(requests)
    {
      store.Save(paper);
      location := Some("/test");
    }
  }

  /** A free user who has made two papers today sends no third request,
      however often the button is pressed. */
  method FreeLimitHolds(store: CustomPaperStore, startOfToday: int) returns (sent: nat)
    requires store.Valid() && store.CreatedToday(startOfToday) >= FreeDailyLimit
    ensures sent == 0
  {
    var form := new CreateTestForm(None);
    form.SubjectsLoaded(["Maths"]);
    form.Create(store, startOfToday);
    form.Create(store, startOfToday);
    sent := |form.requests|;
  }
}
