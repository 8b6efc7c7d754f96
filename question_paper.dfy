/** The practice exam page: the timer, the answer sheet, the question
    palette and the scoring of a finished attempt. */
module QuestionPaper {
  import opened Common
  import opened PaperModel

  /* ---------------------------------------------------------------- */
  /* Timer display                                                    */
  /* ---------------------------------------------------------------- */

  /** `padStart(2, "0")` on a rendered number. */
  function PadTwo(s: string): (r: string)
    requires |s| >= 1
    ensures |r| == if |s| >= 2 then |s| else 2
  {
    if |s| >= 2 then s else "0" + s
  }

  /** The remainder of JavaScript's `%`: it takes the sign of the dividend. */
  function JsRem(a: int, b: int): (r: int)
    requires b > 0
    ensures a >= 0 ==> 0 <= r < b
    ensures a < 0 ==> -b < r <= 0
  {
    if a >= 0 then a % b else -((-a) % b)
  }

  /** `mm:ss`, minutes floored and not capped, each part zero-padded to two. */
  function FormatTime(seconds: int): string
  {
    PadTwo(IntToString(seconds / 60)) + ":" + PadTwo(IntToString(JsRem(seconds, 60)))
  }

  lemma {:induction false} LeadingZeroValue(s: string)
    requires AllDigits(s)
    ensures AllDigits("0" + s) && DigitsValue("0" + s) == DigitsValue(s)
    decreases |s|
  {
    if s != [] {
      var t := "0" + s;
      assert t[..|t| - 1] == "0" + s[..|s| - 1];
      LeadingZeroValue(s[..|s| - 1]);
    }
  }

  lemma PadTwoValue(n: nat)
    ensures AllDigits(PadTwo(NatToString(n)))
    ensures DigitsValue(PadTwo(NatToString(n))) == n
  {
    NatToStringRoundTrip(n);
    LeadingZeroValue(NatToString(n));
  }

  /** For a non-negative number of seconds the display reads back as the
      same number: two or more minute digits, exactly two second digits
      below 60. */
  lemma FormatTimeReadsBack(seconds: nat)
    ensures var r := FormatTime(seconds);
      exists k :: 2 <= k && k + 3 == |r| && r[k] == ':'
        && AllDigits(r[..k]) && AllDigits(r[k + 1..])
        && DigitsValue(r[k + 1..]) < 60
        && DigitsValue(r[..k]) * 60 + DigitsValue(r[k + 1..]) == seconds
  {
    var mm := PadTwo(NatToString(seconds / 60));
    var ss := PadTwo(NatToString(seconds % 60));
    PadTwoValue(seconds / 60);
    PadTwoValue(seconds % 60);
    assert |ss| == 2 by {
      assert seconds % 60 < 10 ==> |NatToString(seconds % 60)| == 1;
      assert seconds % 60 >= 10 ==> |NatToString(seconds % 60)| == 2;
    }
    var r := FormatTime(seconds);
    assert r == mm + ":" + ss;
    var k := |mm|;
    assert r[..k] == mm && r[k + 1..] == ss;
  }

  /* ---------------------------------------------------------------- */
  /* Per-section scoring rules                                        */
  /* ---------------------------------------------------------------- */

  /** `marks_per_question || 1`: a missing or zero mark counts as one. */
  function SectionMark(s: Section): real
  {
    match s.marksPerQuestion
    case Some(m) => if m == 0.0 then 1.0 else m
    case None => 1.0
  }

  /** The section's own penalty when it states one, else a quarter mark on
      papers with negative marking, else nothing. */
  function SectionPenalty(p: Paper, s: Section): real
  {
    match s.negativeMarks
    case Some(n) => n
    case None => if p.hasNegativeMarking then 0.25 else 0.0
  }

  /** The answer key, `-1` when the question has none. */
  function CorrectKey(q: Question): int
  {
    match q.ans
    case Some(a) => a
    case None => -1
  }

  /** The scorer accepts a choice when the key equals the chosen option's
      position or the chosen option's id. */
  predicate ScoredCorrect(q: Question, chosen: nat)
  {
    chosen == CorrectKey(q) || (chosen < |q.options| && q.options[chosen].id == CorrectKey(q))
  }

  /** Every question carries the subject `exam_sub[0]`, or "General". */
  function Subject(p: Paper): (r: string)
    ensures r != ""
  {
    if p.examSub.Some? && |p.examSub.value| > 0 && p.examSub.value[0] != "" then p.examSub.value[0]
    else "General"
  }

  /* ---------------------------------------------------------------- */
  /* The answer sheet laid out question by question                   */
  /* ---------------------------------------------------------------- */

  /** A question together with the marks its section gives and takes. */
  datatype Slot = Slot(question: Question, mark: real, penalty: real)

  function SectionSlots(p: Paper, s: Section): (r: seq<Slot>)
    ensures |r| == |s.questions|
    ensures forall i :: 0 <= i < |r| ==> r[i] == Slot(s.questions[i], SectionMark(s), SectionPenalty(p, s))
  {
    seq(|s.questions|, i requires 0 <= i < |s.questions| => Slot(s.questions[i], SectionMark(s), SectionPenalty(p, s)))
  }

  function SlotLists(p: Paper, sections: seq<Section>): (r: seq<seq<Slot>>)
    ensures |r| == |sections|
    ensures forall i :: 0 <= i < |sections| ==> r[i] == SectionSlots(p, sections[i])
  {
    seq(|sections|, i requires 0 <= i < |sections| => SectionSlots(p, sections[i]))
  }

  /** All questions of `sections`, in running-index order. */
  function Slots(p: Paper, sections: seq<Section>): seq<Slot>
  {
    Flatten(SlotLists(p, sections))
  }

  lemma SlotsSnoc(p: Paper, sections: seq<Section>, k: nat)
    requires k < |sections|
    ensures Slots(p, sections[..k + 1]) == Slots(p, sections[..k]) + SectionSlots(p, sections[k])
  {
    var ls := SlotLists(p, sections[..k + 1]);
    assert ls[..k] == SlotLists(p, sections[..k]);
  }

  /** The running index the scorer uses is the position of the question in
      the flattened list the page displays and records answers against. */
  lemma {:induction false} SlotsMatchQuestions(p: Paper, sections: seq<Section>)
    ensures |Slots(p, sections)| == |AllQuestions(sections)|
    ensures forall i :: 0 <= i < |Slots(p, sections)| ==> Slots(p, sections)[i].question == AllQuestions(sections)[i]
    decreases |sections|
  {
    if sections != [] {
      var k := |sections| - 1;
      assert sections[..k + 1] == sections;
      SlotsSnoc(p, sections, k);
      AllQuestionsSnoc(sections, k);
      SlotsMatchQuestions(p, sections[..k]);
    } else {
      assert QuestionLists(sections) == [];
      assert SlotLists(p, sections) == [];
    }
  }

  /* ---------------------------------------------------------------- */
  /* Grading: the running totals after each question                  */
  /* ---------------------------------------------------------------- */

  datatype Tally = Tally(total: nat, answered: nat, correct: nat, incorrect: nat, score: real, totalMarks: real)

  function AnswerAt(answers: map<nat, nat>, i: nat): Option<nat>
  {
    if i in answers then Some(answers[i]) else None
  }

  /** One question's contribution to the totals. */
  function Step(t: Tally, s: Slot, a: Option<nat>): Tally
  {
    var t1 := t.(total := t.total + 1, totalMarks := t.totalMarks + s.mark);
    match a
    case None => t1
    case Some(c) =>
      if ScoredCorrect(s.question, c) then
        t1.(answered := t1.answered + 1, correct := t1.correct + 1, score := t1.score + s.mark)
      else
        t1.(answered := t1.answered + 1, incorrect := t1.incorrect + 1, score := t1.score - s.penalty)
  }

  /** The totals over `slots`, the answer of slot `i` being `answers[i]`. */
  function Grade(slots: seq<Slot>, answers: map<nat, nat>): Tally
  {
    if slots == [] then Tally(0, 0, 0, 0, 0.0, 0.0)
    else Step(Grade(slots[..|slots| - 1], answers), slots[|slots| - 1], AnswerAt(answers, |slots| - 1))
  }

  lemma GradeSnoc(slots: seq<Slot>, s: Slot, answers: map<nat, nat>)
    ensures Grade(slots + [s], answers) == Step(Grade(slots, answers), s, AnswerAt(answers, |slots|))
  {
    assert (slots + [s])[..|slots|] == slots;
  }

  function AnsweredBelow(answers: map<nat, nat>, n: nat): set<nat>
  {
    set i | i in answers && i < n
  }

  /** Every question is counted once; every answered question is either
      correct or incorrect; the answered count is the number of recorded
      answers that belong to a question. */
  lemma {:induction false} GradeCounts(slots: seq<Slot>, answers: map<nat, nat>)
    ensures Grade(slots, answers).total == |slots|
    ensures Grade(slots, answers).correct + Grade(slots, answers).incorrect == Grade(slots, answers).answered
    ensures Grade(slots, answers).answered == |AnsweredBelow(answers, |slots|)|
    ensures Grade(slots, answers).answered <= |slots|
  {
    var n := |slots|;
    if n == 0 {
      assert AnsweredBelow(answers, 0) == {};
    } else {
      GradeCounts(slots[..n - 1], answers);
      var before := AnsweredBelow(answers, n - 1);
      if n - 1 in answers {
        assert AnsweredBelow(answers, n) == before + {n - 1};
        assert n - 1 !in before;
      } else {
        assert AnsweredBelow(answers, n) == before;
      }
    }
  }

  /** The answered count of the palette (`Object.keys(answers).length`)
      equals the result's answered count when every answer belongs to a
      question. */
  lemma PaletteCountMatchesResult(slots: seq<Slot>, answers: map<nat, nat>)
    requires forall k :: k in answers ==> k < |slots|
    ensures Grade(slots, answers).answered == |answers.Keys|
  {
    GradeCounts(slots, answers);
    assert AnsweredBelow(answers, |slots|) == answers.Keys;
  }

  function MarksTotal(slots: seq<Slot>): real
  {
    if slots == [] then 0.0 else MarksTotal(slots[..|slots| - 1]) + slots[|slots| - 1].mark
  }

  lemma {:induction false} MarksTotalAppend(a: seq<Slot>, b: seq<Slot>)
    ensures MarksTotal(a + b) == MarksTotal(a) + MarksTotal(b)
    decreases |b|
  {
    if b == [] {
      assert a + b == a;
    } else {
      assert (a + b)[..|a + b| - 1] == a + b[..|b| - 1];
      MarksTotalAppend(a, b[..|b| - 1]);
    }
  }

  lemma {:induction false} MarksTotalUniform(slots: seq<Slot>, m: real)
    requires forall i :: 0 <= i < |slots| ==> slots[i].mark == m
    ensures MarksTotal(slots) == |slots| as real * m
    decreases |slots|
  {
    if slots != [] {
      MarksTotalUniform(slots[..|slots| - 1], m);
    }
  }

  lemma {:induction false} GradeTotalMarks(slots: seq<Slot>, answers: map<nat, nat>)
    ensures Grade(slots, answers).totalMarks == MarksTotal(slots)
    decreases |slots|
  {
    if slots != [] {
      GradeTotalMarks(slots[..|slots| - 1], answers);
    }
  }

  /** The paper's maximum: each section's question count times its mark. */
  function PaperMarks(sections: seq<Section>): real
  {
    if sections == [] then 0.0
    else PaperMarks(sections[..|sections| - 1]) + |sections[|sections| - 1].questions| as real * SectionMark(sections[|sections| - 1])
  }

  /** Section by section, the marks of the laid-out questions add up to
      question count times mark. */
  lemma {:induction false} SlotsMarks(p: Paper, sections: seq<Section>)
    ensures MarksTotal(Slots(p, sections)) == PaperMarks(sections)
    decreases |sections|
  {
    if sections == [] {
      assert SlotLists(p, sections) == [];
    } else {
      var k := |sections| - 1;
      var front, last := Slots(p, sections[..k]), SectionSlots(p, sections[k]);
      assert sections[..k + 1] == sections;
      SlotsSnoc(p, sections, k);
      SlotsMarks(p, sections[..k]);
      MarksTotalAppend(front, last);
      MarksTotalUniform(last, SectionMark(sections[k]));
    }
  }

  /** The total marks the scorer reports do not depend on the answers: they
      are the sum, section by section, of question count times mark. */
  lemma TotalMarksOfPaper(p: Paper, sections: seq<Section>, answers: map<nat, nat>)
    ensures Grade(Slots(p, sections), answers).totalMarks == PaperMarks(sections)
  {
    GradeTotalMarks(Slots(p, sections), answers);
    SlotsMarks(p, sections);
  }

  predicate NonNegativeRules(slots: seq<Slot>)
  {
    forall i :: 0 <= i < |slots| ==> slots[i].mark >= 0.0 && slots[i].penalty >= 0.0
  }

  /** With non-negative marks and penalties the raw score never exceeds the
      total marks and never falls below minus the penalties of the wrong
      answers; without penalties it is never negative. */
  lemma {:induction false} ScoreBounds(slots: seq<Slot>, answers: map<nat, nat>)
    requires NonNegativeRules(slots)
    ensures Grade(slots, answers).score <= Grade(slots, answers).totalMarks
    ensures (forall i :: 0 <= i < |slots| ==> slots[i].penalty == 0.0) ==> Grade(slots, answers).score >= 0.0
    decreases |slots|
  {
    if slots != [] {
      ScoreBounds(slots[..|slots| - 1], answers);
    }
  }

  /* ---------------------------------------------------------------- */
  /* The result of an attempt                                         */
  /* ---------------------------------------------------------------- */

  datatype ExamResult = ExamResult(
    totalQuestions: nat, answered: nat, correct: nat, incorrect: nat, unanswered: int,
    score: real, totalMarks: real, percentage: int, accuracy: int, timeTaken: int)

  /** The time allowed, in seconds: `exam_due_min || 60` minutes. */
  function AllowedSeconds(p: Paper): int
  {
    match p.examDueMin
    case Some(m) => if m == 0 then 3600 else m * 60
    case None => 3600
  }

  /** The percentage as the page computes it: from the raw score, which may
      be negative, and zero when there are no marks. */
  function Percentage(score: real, totalMarks: real): int
  {
    if totalMarks > 0.0 then RoundHalfUp(score / totalMarks * 100.0) else 0
  }

  function Accuracy(correct: nat, answered: nat): int
  {
    if answered > 0 then RoundHalfUp(correct as real / answered as real * 100.0) else 0
  }

  function Finalize(p: Paper, t: Tally, timeLeft: int): ExamResult
  {
    ExamResult(t.total, t.answered, t.correct, t.incorrect, t.total - t.answered,
               if t.score < 0.0 then 0.0 else t.score, t.totalMarks,
               Percentage(t.score, t.totalMarks), Accuracy(t.correct, t.answered),
               AllowedSeconds(p) - timeLeft)
  }

  /** The result of answering `answers` on paper `p` with `timeLeft` left. */
  function ResultOf(p: Paper, answers: map<nat, nat>, timeLeft: int): ExamResult
  {
    Finalize(p, Grade(Slots(p, p.sections), answers), timeLeft)
  }

  lemma AccuracyBounds(correct: nat, answered: nat)
    requires correct <= answered
    ensures 0 <= Accuracy(correct, answered) <= 100
  {
    if answered > 0 {
      RatioPercent(correct as real, answered as real);
    }
  }

  /** A part of a positive whole, as a rounded percentage, is 0 to 100. */
  lemma RatioPercent(part: real, whole: real)
    requires 0.0 <= part <= whole && whole > 0.0
    ensures 0 <= RoundHalfUp(part / whole * 100.0) <= 100
  {
    var q := part / whole;
    assert q * whole == part;
    assert 0.0 <= q <= 1.0;
  }

  /** The counts of a result add up and every figure stays in range. */
  lemma ResultFacts(p: Paper, answers: map<nat, nat>, timeLeft: int)
    ensures var r := ResultOf(p, answers, timeLeft);
      && r.totalQuestions == |AllQuestions(p.sections)|
      && r.answered + r.unanswered == r.totalQuestions
      && r.correct + r.incorrect == r.answered
      && r.unanswered >= 0
      && r.score >= 0.0
      && 0 <= r.accuracy <= 100
      && r.totalMarks == PaperMarks(p.sections)
      && r.timeTaken == AllowedSeconds(p) - timeLeft
  {
    var slots := Slots(p, p.sections);
    GradeCounts(slots, answers);
    SlotsMatchQuestions(p, p.sections);
    TotalMarksOfPaper(p, p.sections, answers);
    var t := Grade(slots, answers);
    AccuracyBounds(t.correct, t.answered);
  }

  /** The results page shows an attempt as qualified from 35 percent. */
  predicate Qualified(r: ExamResult)
  {
    r.percentage >= 35
  }

  /** Because the percentage is rounded half up, an attempt qualifies
      exactly when its raw ratio reaches 34.5 percent. */
  lemma QualifiedThreshold(score: real, totalMarks: real)
    requires totalMarks > 0.0
    ensures Percentage(score, totalMarks) >= 35 <==> score / totalMarks * 100.0 >= 34.5
  {
  }

  /** The percentage as the page intends it: from the floored score that the
      result reports. */
  function FlooredPercentage(t: Tally): (r: int)
  {
    Percentage(if t.score < 0.0 then 0.0 else t.score, t.totalMarks)
  }

  /** The intended percentage lies between 0 and 100 whenever marks and
      penalties are non-negative. */
  lemma FlooredPercentageInRange(slots: seq<Slot>, answers: map<nat, nat>)
    requires NonNegativeRules(slots)
    ensures 0 <= FlooredPercentage(Grade(slots, answers)) <= 100
  {
    ScoreBounds(slots, answers);
    var t := Grade(slots, answers);
    var s := if t.score < 0.0 then 0.0 else t.score;
    if t.totalMarks > 0.0 {
      RatioPercent(s, t.totalMarks);
    }
  }

  /** One question, a quarter-mark penalty, one wrong answer: the result
      shows a score of 0 but a percentage of -25. */
  lemma NegativePercentageWithZeroScore()
    ensures var q := Question(None, None, [QuestionOption(1, []), QuestionOption(2, [])], Some(2), None);
      var p := Paper([Section([q], None, None)], true, None, None, None, false, None);
      var r := ResultOf(p, map[0 := 0], 0);
      r.score == 0.0 && r.percentage == -25 && FlooredPercentage(Grade(Slots(p, p.sections), map[0 := 0])) == 0
  {
    var q := Question(None, None, [QuestionOption(1, []), QuestionOption(2, [])], Some(2), None);
    var p := Paper([Section([q], None, None)], true, None, None, None, false, None);
    var slots := Slots(p, p.sections);
    assert p.sections[..1] == p.sections;
    SlotsSnoc(p, p.sections, 0);
    assert SlotLists(p, p.sections[..0]) == [];
    assert slots == [Slot(q, 1.0, 0.25)];
    assert !ScoredCorrect(q, 0);
    GradeSnoc([], Slot(q, 1.0, 0.25), map[0 := 0]);
    assert [] + [Slot(q, 1.0, 0.25)] == slots;
    assert Grade(slots, map[0 := 0]) == Tally(1, 1, 0, 1, -0.25, 1.0);
    assert -0.25 / 1.0 * 100.0 + 0.5 == -24.5;
    assert Percentage(-0.25, 1.0) == -25;
  }

  /** A two-section paper scored +1/-0.25, first answer right and second
      wrong: 0.75 out of 2. */
  lemma TwoSectionExample()
    ensures var right := Question(None, None, [QuestionOption(10, []), QuestionOption(11, [])], Some(10), None);
      var wrong := Question(None, None, [QuestionOption(20, []), QuestionOption(21, [])], Some(21), None);
      var p := Paper([Section([right], Some(1.0), None), Section([wrong], Some(1.0), Some(0.25))],
                     false, None, None, None, false, None);
      var r := ResultOf(p, map[0 := 0, 1 := 0], 0);
      r.score == 0.75 && r.totalMarks == 2.0 && r.correct == 1 && r.incorrect == 1 && r.unanswered == 0
  {
    var right := Question(None, None, [QuestionOption(10, []), QuestionOption(11, [])], Some(10), None);
    var wrong := Question(None, None, [QuestionOption(20, []), QuestionOption(21, [])], Some(21), None);
    var p := Paper([Section([right], Some(1.0), None), Section([wrong], Some(1.0), Some(0.25))],
                   false, None, None, None, false, None);
    var a, b := Slot(right, 1.0, 0.0), Slot(wrong, 1.0, 0.25);
    assert SectionSlots(p, p.sections[0]) == [a];
    assert SectionSlots(p, p.sections[1]) == [b];
    TwoSectionSlots(p, a, b);
    var answers := map[0 := 0, 1 := 0];
    GradeTwo(a, b, answers);
    assert ScoredCorrect(right, 0) && !ScoredCorrect(wrong, 0);
    var t2 := Tally(2, 2, 1, 1, 0.75, 2.0);
    assert Step(Step(Tally(0, 0, 0, 0, 0.0, 0.0), a, Some(0)), b, Some(0)) == t2;
    assert ResultOf(p, answers, 0) == Finalize(p, t2, 0);
  }

  /** A paper of two one-question sections lays out those two questions. */
  lemma TwoSectionSlots(p: Paper, a: Slot, b: Slot)
    requires |p.sections| == 2
    requires SectionSlots(p, p.sections[0]) == [a] && SectionSlots(p, p.sections[1]) == [b]
    ensures Slots(p, p.sections) == [a, b]
  {
    var lists := SlotLists(p, p.sections);
    assert lists == [[a], [b]];
    assert lists[..1] == [[a]] && lists[..1][..0] == [];
    assert Flatten(lists[..1]) == [a];
  }

  /** Grading two questions is two steps. */
  lemma GradeTwo(a: Slot, b: Slot, answers: map<nat, nat>)
    ensures Grade([a, b], answers) == Step(Step(Tally(0, 0, 0, 0, 0.0, 0.0), a, AnswerAt(answers, 0)), b, AnswerAt(answers, 1))
  {
    assert [a, b][..1] == [a] && [a][..0] == [];
    assert Grade([], answers) == Tally(0, 0, 0, 0, 0.0, 0.0);
    assert Grade([a], answers) == Step(Grade([], answers), a, AnswerAt(answers, 0));
  }

  /* ---------------------------------------------------------------- */
  /* The scorer as the page runs it                                   */
  /* ---------------------------------------------------------------- */

  datatype SubjectStat = SubjectStat(subject: string, correct: nat, total: nat)
  datatype PaperType = RealExam | LatestPaper | CustomPaper

  /** `Object.entries(subjectStatsMap)`: one entry for the paper's subject
      once a question has been seen. */
  function SubjectStats(p: Paper, t: Tally): seq<SubjectStat>
  {
    if t.total == 0 then [] else [SubjectStat(Subject(p), t.correct, t.total)]
  }

  function PaperTypeOf(isCustom: bool, p: Paper): PaperType
  {
    if isCustom then CustomPaper else if p.isRealExam then RealExam else LatestPaper
  }

  /** The subject table agrees with the running totals. */
  predicate StatsAgree(statsMap: map<string, (nat, nat)>, subject: string, t: Tally)
  {
    && statsMap.Keys <= {subject}
    && (subject in statsMap <==> t.total > 0)
    && (t.total > 0 ==> statsMap[subject] == (t.correct, t.total))
    && t.correct <= t.total
  }

  /** One question's turn of the scorer: counts it, adds its mark to the
      maximum and to the subject's total, and scores the recorded answer. */
  method ScoreQuestion(t: Tally, statsMap: map<string, (nat, nat)>, subject: string, slot: Slot, answer: Option<nat>)
    returns (t': Tally, statsMap': map<string, (nat, nat)>)
    requires StatsAgree(statsMap, subject, t)
    ensures t' == Step(t, slot, answer)
    ensures StatsAgree(statsMap', subject, t')
  {
    var question := slot.question;
    t' := t.(total := t.total + 1, totalMarks := t.totalMarks + slot.mark);
    var entry := if subject in statsMap then statsMap[subject] else (0, 0);
    statsMap' := statsMap[subject := (entry.0, entry.1 + 1)];
    if answer.Some? {
      var userAnswerIndex := answer.value;
      t' := t'.(answered := t'.answered + 1);
      var correctAns := if question.ans.Some? then question.ans.value else -1;
      var isCorrect := userAnswerIndex == correctAns
        || (userAnswerIndex < |question.options| && question.options[userAnswerIndex].id == correctAns);
      if isCorrect {
        t' := t'.(correct := t'.correct + 1, score := t'.score + slot.mark);
        statsMap' := statsMap'[subject := (statsMap'[subject].0 + 1, statsMap'[subject].1)];
      } else {
        t' := t'.(incorrect := t'.incorrect + 1, score := t'.score - slot.penalty);
      }
    }
  }

  lemma SnocPrefix<T>(a: seq<T>, b: seq<T>, k: nat)
    requires k < |b|
    ensures (a + b[..k]) + [b[k]] == a + b[..k + 1]
  {
    assert b[..k + 1] == b[..k] + [b[k]];
  }

  /** Grading one more question of a section is one more `Step`. */
  lemma SectionStep(paper: Paper, section: Section, done: seq<Slot>, qi: nat, answers: map<nat, nat>)
    requires qi < |section.questions|
    ensures Grade(done + SectionSlots(paper, section)[..qi + 1], answers)
            == Step(Grade(done + SectionSlots(paper, section)[..qi], answers),
                    Slot(section.questions[qi], SectionMark(section), SectionPenalty(paper, section)),
                    AnswerAt(answers, |done| + qi))
  {
    var slots := SectionSlots(paper, section);
    SnocPrefix(done, slots, qi);
    GradeSnoc(done + slots[..qi], slots[qi], answers);
  }

  /** One section's turn of the scorer: its questions in order, the running
      index advancing past each. */
  method ScoreSection(paper: Paper, section: Section, answers: map<nat, nat>, subject: string,
                      t0: Tally, stats0: map<string, (nat, nat)>, start: nat, ghost done: seq<Slot>)
    returns (t: Tally, statsMap: map<string, (nat, nat)>, runningIndex: nat)
    requires start == |done| && t0 == Grade(done, answers) && StatsAgree(stats0, subject, t0)
    ensures runningIndex == |done| + |section.questions|
    ensures t == Grade(done + SectionSlots(paper, section), answers)
    ensures StatsAgree(statsMap, subject, t)
  {
    var sectionMark := SectionMark(section);
    var sectionNegative := SectionPenalty(paper, section);
    ghost var slots := SectionSlots(paper, section);
    t, statsMap, runningIndex := t0, stats0, start;
    var qi := 0;
    GradeStart(done, slots, answers);
    while qi < |section.questions|
      invariant 0 <= qi <= |section.questions|
      invariant runningIndex == |done| + qi
      invariant t == Grade(done + slots[..qi], answers)
      invariant StatsAgree(statsMap, subject, t)
    {
      var question := section.questions[qi];
      var slot := Slot(question, sectionMark, sectionNegative);
      SectionStep(paper, section, done, qi, answers);
      t, statsMap := ScoreQuestion(t, statsMap, subject, slot, AnswerAt(answers, runningIndex));
      runningIndex := runningIndex + 1;
      qi := qi + 1;
    }
    GradeWhole(done, slots, answers);
  }

  /** Before the first question of a section, the totals are those of the
      questions already done. */
  lemma GradeStart(done: seq<Slot>, slots: seq<Slot>, answers: map<nat, nat>)
    ensures Grade(done + slots[..0], answers) == Grade(done, answers)
  {
    assert done + slots[..0] == done;
  }

  /** After the last question of a section, the whole section is done. */
  lemma GradeWhole(done: seq<Slot>, slots: seq<Slot>, answers: map<nat, nat>)
    ensures Grade(done + slots[..|slots|], answers) == Grade(done + slots, answers)
  {
    assert slots[..|slots|] == slots;
  }

  /** Walks every section and every question once, as the page does. */
  method ScorePaper(paper: Paper, answers: map<nat, nat>, timeLeft: int)
    returns (result: ExamResult, subjectStats: seq<SubjectStat>)
    ensures result == ResultOf(paper, answers, timeLeft)
    ensures subjectStats == SubjectStats(paper, Grade(Slots(paper, paper.sections), answers))
  {
    var t := Tally(0, 0, 0, 0, 0.0, 0.0);
    var statsMap: map<string, (nat, nat)> := map[];
    var subject := Subject(paper);
    var runningIndex := 0;
    var si := 0;
    while si < |paper.sections|
      invariant 0 <= si <= |paper.sections|
      invariant runningIndex == |Slots(paper, paper.sections[..si])|
      invariant t == Grade(Slots(paper, paper.sections[..si]), answers)
      invariant StatsAgree(statsMap, subject, t)
    {
      t, statsMap, runningIndex := ScoreSection(paper, paper.sections[si], answers, subject, t, statsMap,
                                                runningIndex, Slots(paper, paper.sections[..si]));
      SlotsSnoc(paper, paper.sections, si);
      si := si + 1;
    }
    assert paper.sections[..si] == paper.sections;
    result := Finalize(paper, t, timeLeft);
    subjectStats := if subject in statsMap then [SubjectStat(subject, statsMap[subject].0, statsMap[subject].1)] else [];
  }

  /* ---------------------------------------------------------------- */
  /* The exam session                                                 */
  /* ---------------------------------------------------------------- */

  /** Seconds on the clock once the paper has loaded: `exam_due_min` minutes
      when set and non-zero, else the initial hour. */
  function InitialTimeLeft(p: Paper): (r: int)
    ensures r == AllowedSeconds(p)
  {
    match p.examDueMin
    case Some(m) => if m != 0 then m * 60 else 3600
    case None => 3600
  }

  /** The first supported language, else English. */
  function InitialLanguage(p: Paper): string
  {
    if p.supportedLanguages.Some? && |p.supportedLanguages.value| > 0 then p.supportedLanguages.value[0] else "en"
  }

  datatype PaletteStatus = Answered | Marked | NotVisited | Visited
  datatype OptionStatus = Selected | MarkedOption | Default

  /** What the page submits when an attempt is finished. */
  datatype Submission = Submission(paperType: PaperType, result: ExamResult, subjectStats: seq<SubjectStat>)

  function Toggled(s: set<nat>, i: nat): set<nat>
  {
    if i in s then s - {i} else s + {i}
  }

  class PracticeSession {
    const paper: Paper
    const isCustom: bool
    const questions: seq<Question>
    var language: string
    var index: nat
    var answers: map<nat, nat>
    var marked: set<nat>
    var timeLeft: int
    var paletteOpen: bool
    /** Every attempt sent by "Finish" or the palette's "Submit". */
    var submissions: seq<Submission>

    ghost predicate Valid()
      reads this
    {
      && questions == AllQuestions(paper.sections)
      && 0 < |questions|
      && index < |questions|
      && (forall k :: k in answers ==> k < |questions| && answers[k] < |questions[k].options|)
      && (forall k :: k in marked ==> k < |questions|)
    }

    /** The page once a paper with at least one question has loaded. */
    constructor (p: Paper, custom: bool)
      requires |AllQuestions(p.sections)| > 0
      ensures Valid()
      ensures paper == p && isCustom == custom
      ensures language == InitialLanguage(p) && index == 0
      ensures answers == map[] && marked == {} && timeLeft == InitialTimeLeft(p)
      ensures !paletteOpen && submissions == []
    {
      paper := p;
      isCustom := custom;
      questions := AllQuestions(p.sections);
      language := InitialLanguage(p);
      index := 0;
      answers := map[];
      marked := {};
      timeLeft := InitialTimeLeft(p);
      paletteOpen := false;
      submissions := [];
    }

    /** One second of the countdown; it stops at zero and never submits. */
    method Tick()
      requires Valid()
      modifies this
      ensures Valid()
      ensures timeLeft == if old(timeLeft) <= 0 then old(timeLeft) else old(timeLeft) - 1
      ensures timeLeft >= 0 || timeLeft == old(timeLeft)
      ensures submissions == old(submissions) && answers == old(answers)
      ensures index == old(index) && marked == old(marked)
      ensures language == old(language) && paletteOpen == old(paletteOpen)
    {
      if timeLeft > 0 {
        timeLeft := if timeLeft - 1 < 0 then 0 else timeLeft - 1;
      }
    }

    /** As written, running out of time submits nothing: from one second
        left, the clock stops at zero and later ticks change nothing. */
    method TimeRunsOutUnsubmitted()
      requires Valid() && timeLeft == 1
      modifies this
      ensures Valid()
      ensures timeLeft == 0 && submissions == old(submissions) && answers == old(answers)
    {
      Tick();
      Tick();
    }

    /** The countdown the default instructions announce ("Exam auto-submits
        when time ends"): the tick that reaches zero finishes the attempt. */
    method TickAndExpire() returns (finished: bool)
      requires Valid()
      modifies this
      ensures Valid()
      ensures timeLeft == if old(timeLeft) <= 0 then old(timeLeft) else old(timeLeft) - 1
      ensures finished <==> old(timeLeft) == 1
      ensures finished ==> submissions == old(submissions) + [Submission(
        PaperTypeOf(isCustom, paper),
        ResultOf(paper, answers, 0),
        SubjectStats(paper, Grade(Slots(paper, paper.sections), answers)))]
      ensures !finished ==> submissions == old(submissions)
      ensures answers == old(answers) && index == old(index) && marked == old(marked)
      ensures language == old(language) && paletteOpen == old(paletteOpen)
    {
      finished := timeLeft == 1;
      Tick();
      if finished {
        Finish();
      }
    }

    method SelectLanguage(l: string)
      requires Valid()
      modifies this
      ensures Valid() && language == l
      ensures index == old(index) && answers == old(answers) && marked == old(marked)
      ensures timeLeft == old(timeLeft) && paletteOpen == old(paletteOpen) && submissions == old(submissions)
    {
      language := l;
    }

    /** Choosing option `option` of the current question replaces any
        earlier choice for it and leaves the other answers alone. */
    method Select(option: nat)
      requires Valid() && option < |questions[index].options|
      modifies this
      ensures Valid()
      ensures answers == old(answers)[old(index) := option]
      ensures index == old(index) && marked == old(marked) && language == old(language)
      ensures timeLeft == old(timeLeft) && paletteOpen == old(paletteOpen) && submissions == old(submissions)
    {
      answers := answers[index := option];
    }

    /** Marks the current question for review, or clears the mark. */
    method ToggleMark()
      requires Valid()
      modifies this
      ensures Valid()
      ensures marked == Toggled(old(marked), old(index))
      ensures (index in marked) != (index in old(marked))
      ensures index == old(index) && answers == old(answers) && language == old(language)
      ensures timeLeft == old(timeLeft) && paletteOpen == old(paletteOpen) && submissions == old(submissions)
    {
      if index in marked {
        marked := marked - {index};
      } else {
        marked := marked + {index};
      }
    }

    method Prev()
      requires Valid()
      modifies this
      ensures Valid()
      ensures index == if old(index) == 0 then 0 else old(index) - 1
      ensures answers == old(answers) && marked == old(marked) && language == old(language)
      ensures timeLeft == old(timeLeft) && paletteOpen == old(paletteOpen) && submissions == old(submissions)
    {
      index := if index == 0 then 0 else index - 1;
    }

    /** Scores the current answers and records the submission. Nothing
        prevents a second call: each call submits again. */
    method Finish()
      requires Valid()
      modifies this
      ensures Valid()
      ensures submissions == old(submissions) + [Submission(
        PaperTypeOf(isCustom, paper),
        ResultOf(paper, answers, timeLeft),
        SubjectStats(paper, Grade(Slots(paper, paper.sections), answers)))]
      ensures index == old(index) && answers == old(answers) && marked == old(marked)
      ensures language == old(language) && timeLeft == old(timeLeft) && paletteOpen == old(paletteOpen)
    {
      var result, stats := ScorePaper(paper, answers, timeLeft);
      submissions := submissions + [Submission(PaperTypeOf(isCustom, paper), result, stats)];
    }

    /** "Next" moves on; on the last question it reads "Finish" and submits. */
    method Next() returns (finished: bool)
      requires Valid()
      modifies this
      ensures Valid()
      ensures finished <==> old(index) == |questions| - 1
      ensures !finished ==> index == old(index) + 1 && submissions == old(submissions)
      ensures finished ==> index == old(index) && submissions == old(submissions) + [Submission(
        PaperTypeOf(isCustom, paper),
        ResultOf(paper, answers, timeLeft),
        SubjectStats(paper, Grade(Slots(paper, paper.sections), answers)))]
      ensures answers == old(answers) && marked == old(marked) && language == old(language)
      ensures timeLeft == old(timeLeft) && paletteOpen == old(paletteOpen)
    {
      if index < |questions| - 1 {
        index := index + 1;
        finished := false;
      } else {
        Finish();
        finished := true;
      }
    }

    method OpenPalette()
      requires Valid()
      modifies this
      ensures Valid() && paletteOpen
      ensures index == old(index) && answers == old(answers) && marked == old(marked)
      ensures language == old(language) && timeLeft == old(timeLeft) && submissions == old(submissions)
    {
      paletteOpen := true;
    }

    method ClosePalette()
      requires Valid()
      modifies this
      ensures Valid() && !paletteOpen
      ensures index == old(index) && answers == old(answers) && marked == old(marked)
      ensures language == old(language) && timeLeft == old(timeLeft) && submissions == old(submissions)
    {
      paletteOpen := false;
    }

    /** A palette button jumps to its question and closes the palette. */
    method JumpTo(i: nat)
      requires Valid() && i < |questions|
      modifies this
      ensures Valid() && index == i && !paletteOpen
      ensures answers == old(answers) && marked == old(marked)
      ensures language == old(language) && timeLeft == old(timeLeft) && submissions == old(submissions)
    {
      index := i;
      paletteOpen := false;
    }

    /** The palette's "Submit": closes the palette and finishes. */
    method SubmitFromPalette()
      requires Valid()
      modifies this
      ensures Valid() && !paletteOpen
      ensures submissions == old(submissions) + [Submission(
        PaperTypeOf(isCustom, paper),
        ResultOf(paper, answers, timeLeft),
        SubjectStats(paper, Grade(Slots(paper, paper.sections), answers)))]
      ensures index == old(index) && answers == old(answers) && marked == old(marked)
      ensures language == old(language) && timeLeft == old(timeLeft)
    {
      paletteOpen := false;
      Finish();
    }

    /** A palette cell: a review mark wins over an answer, an answer over
        the current position. */
    function PaletteStatusOf(i: nat): (r: PaletteStatus)
      reads this
      ensures r == Marked <==> i in marked
      ensures r == Answered <==> i !in marked && i in answers
      ensures r == Visited <==> i !in marked && i !in answers && i == index
      ensures r == NotVisited <==> i !in marked && i !in answers && i != index
    {
      if i in marked then Marked
      else if i in answers then Answered
      else if i == index then Visited
      else NotVisited
    }

    /** An option button of the current question: chosen, else flagged by
        the question's review mark. */
    function OptionStatusOf(option: nat): (r: OptionStatus)
      reads this
      ensures r == Selected <==> index in answers && answers[index] == option
      ensures r == MarkedOption <==> index in marked && !(index in answers && answers[index] == option)
      ensures r == Default <==> index !in marked && !(index in answers && answers[index] == option)
    {
      if index in answers && answers[index] == option then Selected
      else if index in marked then MarkedOption
      else Default
    }

    /** The palette's "answered" count. */
    function AnsweredCount(): (n: nat)
      reads this
      requires Valid()
      ensures n <= |questions|
      ensures n == Grade(Slots(paper, paper.sections), answers).answered
    {
      SlotsMatchQuestions(paper, paper.sections);
      PaletteCountMatchesResult(Slots(paper, paper.sections), answers);
      GradeCounts(Slots(paper, paper.sections), answers);
      |answers.Keys|
    }
  }

  /** Toggling the review mark twice leaves the marks as they were. */
  lemma ToggleTwice(s: set<nat>, i: nat)
    ensures Toggled(Toggled(s, i), i) == s
  {
    if i in s {
      assert Toggled(s, i) == s - {i};
    } else {
      assert Toggled(s, i) == s + {i};
    }
  }
}
