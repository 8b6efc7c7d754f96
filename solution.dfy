/** The solutions page: every question of the last attempted paper with the
    answer the key designates and the explanation. */
module Solution {
  import opened Common
  import opened PaperModel
  import opened QuestionPaper

  /** The option the page shows as correct: the first option whose id is the
      key, else the option at position `key` when that position exists. */
  function CorrectOptionIndex(q: Question): (r: Option<nat>)
    ensures r.Some? ==> r.value < |q.options|
    ensures q.ans.None? ==> r.None?
    ensures q.ans.Some? && r.Some? ==>
      q.options[r.value].id == q.ans.value || (r.value == q.ans.value && forall j :: 0 <= j < |q.options| ==> q.options[j].id != q.ans.value)
    ensures q.ans.Some? && r.Some? && q.options[r.value].id == q.ans.value ==>
      forall j :: 0 <= j < r.value ==> q.options[j].id != q.ans.value
    ensures q.ans.Some? && r.None? ==>
      (forall j :: 0 <= j < |q.options| ==> q.options[j].id != q.ans.value) && !(0 <= q.ans.value < |q.options|)
  {
    match q.ans
    case None => None
    case Some(key) =>
      match FindFirst(q.options, (o: QuestionOption) => o.id == key)
      case Some(i) => Some(i)
      case None => if 0 <= key < |q.options| then Some(key) else None
  }

  /** "Correct answer: ...", or "N/A" when the key designates no option. */
  function CorrectText(q: Question, lang: string): (r: string)
    ensures CorrectOptionIndex(q).None? ==> r == "N/A"
    ensures CorrectOptionIndex(q).Some? ==>
      r == GetContent(Some(q.options[CorrectOptionIndex(q).value].content), lang).text
  {
    match CorrectOptionIndex(q)
    case None => "N/A"
    case Some(i) => GetContent(Some(q.options[i].content), lang).text
  }

  datatype SolutionEntry = SolutionEntry(number: nat, question: string, correct: string, explanation: Option<string>)

  function EntryOf(q: Question, index: nat, lang: string): SolutionEntry
  {
    var exp := GetContent(q.explanation, lang).text;
    SolutionEntry(index + 1, GetContent(q.content, lang).text, CorrectText(q, lang),
                  if exp == "" then None else Some(exp))
  }

  /** The list the page renders: one entry per question, numbered from 1,
      in the order the exam showed them. */
  function SolutionsOf(p: Paper, lang: string): (r: seq<SolutionEntry>)
    ensures |r| == |AllQuestions(p.sections)|
    ensures forall i :: 0 <= i < |r| ==>
      (r[i].number == i + 1 && r[i].correct == CorrectText(AllQuestions(p.sections)[i], lang))
  {
    var qs := AllQuestions(p.sections);
    seq(|qs|, i requires 0 <= i < |qs| => EntryOf(qs[i], i, lang))
  }

  /* ---------------------------------------------------------------- */
  /* The scorer and the solutions page disagree                       */
  /* ---------------------------------------------------------------- */

  /** Options with ids 1 and 0 and key 1: the scorer accepts both options
      (the first by id, the second by position) while the solutions page
      designates only the first. */
  lemma ScorerAcceptsTwoOptions()
    ensures var q := Question(None, None, [QuestionOption(1, []), QuestionOption(0, [])], Some(1), None);
      ScoredCorrect(q, 0) && ScoredCorrect(q, 1) && CorrectOptionIndex(q) == Some(0)
  {
    var q := Question(None, None, [QuestionOption(1, []), QuestionOption(0, [])], Some(1), None);
    assert q.options[0].id == 1;
  }

  /** The intended rule: a choice is correct when it is the option the
      solutions page designates. */
  predicate IntendedCorrect(q: Question, chosen: nat)
  {
    CorrectOptionIndex(q) == Some(chosen)
  }

  /** At most one option of a question is correct under the intended rule,
      and whatever it accepts the page's scorer accepts too. */
  lemma IntendedCorrectIsUniqueAndScored(q: Question, a: nat, b: nat)
    requires IntendedCorrect(q, a)
    ensures IntendedCorrect(q, b) ==> a == b
    ensures ScoredCorrect(q, a)
  {
  }

  predicate DistinctIds(q: Question)
  {
    forall i, j :: 0 <= i < j < |q.options| ==> q.options[i].id != q.options[j].id
  }

  /** Option ids are the positions 0, 1, 2, ... */
  predicate IdsArePositions(q: Question)
  {
    forall i :: 0 <= i < |q.options| ==> q.options[i].id == i
  }

  /** Option ids lie above every position (database-style ids). */
  predicate IdsApartFromPositions(q: Question)
  {
    forall i :: 0 <= i < |q.options| ==> q.options[i].id >= |q.options|
  }

  /** With distinct ids that are either the positions themselves or never a
      position, the scorer's rule and the intended rule accept exactly the
      same options. */
  lemma ScorerAgreesOnUnambiguousIds(q: Question, c: nat)
    requires c < |q.options| && DistinctIds(q)
    requires IdsArePositions(q) || IdsApartFromPositions(q)
    ensures ScoredCorrect(q, c) <==> IntendedCorrect(q, c)
  {
    if q.ans.Some? {
      var key := q.ans.value;
      if exists i :: 0 <= i < |q.options| && q.options[i].id == key {
        var i :| 0 <= i < |q.options| && q.options[i].id == key;
        assert CorrectOptionIndex(q) == Some(i);
        assert q.options[c].id == key <==> c == i;
        if IdsArePositions(q) {
          assert i == key;
        } else {
          assert c != key;
        }
      } else {
        assert q.options[c].id != key;
      }
    } else {
      assert q.options[c].id != -1;
    }
  }

  /** A scorer that accepts exactly the designated option. */
  function IntendedStep(t: Tally, s: Slot, a: Option<nat>): (r: Tally)
    ensures a.Some? && !IntendedCorrect(s.question, a.value) ==> r.score == t.score - s.penalty
    ensures a.Some? && IntendedCorrect(s.question, a.value) ==> r.score == t.score + s.mark
    ensures r.total == t.total + 1 && r.correct + r.incorrect == t.correct + t.incorrect + (if a.Some? then 1 else 0)
  {
    var t1 := t.(total := t.total + 1, totalMarks := t.totalMarks + s.mark);
    match a
    case None => t1
    case Some(c) =>
      if IntendedCorrect(s.question, c) then
        t1.(answered := t1.answered + 1, correct := t1.correct + 1, score := t1.score + s.mark)
      else
        t1.(answered := t1.answered + 1, incorrect := t1.incorrect + 1, score := t1.score - s.penalty)
  }

  /** On questions whose ids are unambiguous the intended scorer and the
      page's scorer give the same totals. */
  lemma IntendedStepMatches(t: Tally, s: Slot, a: Option<nat>)
    requires DistinctIds(s.question) && (IdsArePositions(s.question) || IdsApartFromPositions(s.question))
    requires a.Some? ==> a.value < |s.question.options|
    ensures IntendedStep(t, s, a) == Step(t, s, a)
  {
    if a.Some? {
      ScorerAgreesOnUnambiguousIds(s.question, a.value);
    }
  }
}
