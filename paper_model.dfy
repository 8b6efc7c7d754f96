/** The question-paper payload the backend serves (sections of questions
    with multi-language content and an answer key), the language-fallback
    rule every exam page uses to pick the text to show, and the flattening
    of sections into one question list. */
module PaperModel {
  import opened Common

  datatype ContentData = ContentData(text: Option<string>, imageUrl: Option<string>)

  /** A JSON object from language code to content, keys in object order
      (the order `Object.values` reports). Keys are distinct. */
  type MultiLangContent = seq<(string, ContentData)>

  datatype QuestionOption = QuestionOption(id: int, content: MultiLangContent)

  datatype Question = Question(
    id: Option<string>,
    content: Option<MultiLangContent>,
    options: seq<QuestionOption>,
    ans: Option<int>,
    explanation: Option<MultiLangContent>)

  datatype Section = Section(
    questions: seq<Question>,
    marksPerQuestion: Option<real>,
    negativeMarks: Option<real>)

  datatype Paper = Paper(
    sections: seq<Section>,
    hasNegativeMarking: bool,
    examSub: Option<seq<string>>,
    examDueMin: Option<int>,
    supportedLanguages: Option<seq<string>>,
    isRealExam: bool,
    instructions: Option<string>)

  /* ---------------------------------------------------------------- */
  /* getContent                                                        */
  /* ---------------------------------------------------------------- */

  datatype Resolved = Resolved(text: string, image: Option<string>)

  /** `content[key]`: the value stored under `key`, if any. */
  function ValueAt(c: MultiLangContent, key: string): (r: Option<ContentData>)
    ensures r.Some? <==> exists i :: 0 <= i < |c| && c[i].0 == key
    ensures r.Some? ==> exists i :: 0 <= i < |c| && c[i] == (key, r.value)
  {
    match FindFirst(c, (e: (string, ContentData)) => e.0 == key)
    case None => None
    case Some(i) => Some(c[i].1)
  }

  function TextOf(d: ContentData): string
  {
    match d.text
    case Some(t) => t
    case None => ""
  }

  /** `content[lang] || content["en"] || Object.values(content)[0]`. */
  function PickEntry(c: MultiLangContent, lang: string): Option<ContentData>
  {
    if ValueAt(c, lang).Some? then ValueAt(c, lang)
    else if ValueAt(c, "en").Some? then ValueAt(c, "en")
    else if |c| > 0 then Some(c[0].1)
    else None
  }

  /** The text shown for a piece of multi-language content: the requested
      language if present, else English, else the first language stored;
      the empty text when there is no content or no text. */
  function GetContent(content: Option<MultiLangContent>, lang: string): (r: Resolved)
    ensures content.None? ==> r == Resolved("", None)
    ensures content.Some? && ValueAt(content.value, lang).Some?
            ==> r.text == TextOf(ValueAt(content.value, lang).value)
    ensures content.Some? && ValueAt(content.value, lang).None? && ValueAt(content.value, "en").Some?
            ==> r.text == TextOf(ValueAt(content.value, "en").value)
    ensures content.Some? && ValueAt(content.value, lang).None? && ValueAt(content.value, "en").None?
            ==> r.text == (if content.value == [] then "" else TextOf(content.value[0].1))
  {
    match content
    case None => Resolved("", None)
    case Some(c) =>
      match PickEntry(c, lang)
      case None => Resolved("", None)
      case Some(d) => Resolved(TextOf(d), d.imageUrl)
  }

  /* ---------------------------------------------------------------- */
  /* Flattening sections into one question list                       */
  /* ---------------------------------------------------------------- */

  function QuestionLists(sections: seq<Section>): (r: seq<seq<Question>>)
    ensures |r| == |sections|
    ensures forall i :: 0 <= i < |sections| ==> r[i] == sections[i].questions
  {
    seq(|sections|, i requires 0 <= i < |sections| => sections[i].questions)
  }

  /** `sections.flatMap(section => section.questions || [])`. */
  function AllQuestions(sections: seq<Section>): seq<Question>
  {
    Flatten(QuestionLists(sections))
  }

  /** Question `i` of section `j` sits in the flattened list right after
      the questions of the sections before it. */
  lemma AllQuestionsIndex(sections: seq<Section>, j: nat, i: nat)
    requires j < |sections| && i < |sections[j].questions|
    ensures SumLengths(QuestionLists(sections[..j])) + i < |AllQuestions(sections)|
    ensures AllQuestions(sections)[SumLengths(QuestionLists(sections[..j])) + i]
            == sections[j].questions[i]
  {
    var ls := QuestionLists(sections);
    assert ls[..j] == QuestionLists(sections[..j]);
    FlattenIndex(ls, j, i);
  }

  /** Adding a section appends its questions. */
  lemma AllQuestionsSnoc(sections: seq<Section>, k: nat)
    requires k < |sections|
    ensures AllQuestions(sections[..k + 1]) == AllQuestions(sections[..k]) + sections[k].questions
  {
    var ls := QuestionLists(sections[..k + 1]);
    assert ls[..k] == QuestionLists(sections[..k]);
  }
}
