/** The paper details page shown before an exam starts: the instruction
    list parsed from the paper's free text, and the negative-marking label. */
module PaperDetails {
  import opened Common
  import opened PaperModel
  import opened QuestionPaper

  /* ---------------------------------------------------------------- */
  /* Instruction lines                                                 */
  /* ---------------------------------------------------------------- */

  /** The characters of a list marker: a bullet, a hyphen or a digit. */
  predicate IsMarker(c: char) { c == '\U{2022}' || c == '-' || IsDigit(c) }

  /** The length of the run of marker characters `s` starts with. */
  function MarkerRun(s: string): (k: nat)
    ensures k <= |s|
    ensures forall i :: 0 <= i < k ==> IsMarker(s[i])
    ensures k == |s| || !IsMarker(s[k])
  {
    if s != [] && IsMarker(s[0]) then 1 + MarkerRun(s[1..]) else 0
  }

  /** Removing the pattern `^[•\-\d]+\.?\s*`: a leading marker run, one optional
      full stop after it and the white space after that are removed. */
  function StripMarker(s: string): (r: string)
    ensures MarkerRun(s) == 0 ==> r == s
    ensures MarkerRun(s) > 0 ==> |r| < |s| && r == s[|s| - |r|..]
    ensures MarkerRun(s) > 0 ==> r == [] || !IsSpace(r[0])
  {
    var k := MarkerRun(s);
    if k == 0 then s
    else
      var k2 := if k < |s| && s[k] == '.' then k + 1 else k;
      TrimFrom(s, k2)
  }

  /** What a marked line loses is exactly its marker run, the one '.' right
      after the run when there is one, and then only white space. */
  lemma StripMarkerRemoves(s: string)
    requires MarkerRun(s) > 0
    ensures var r := StripMarker(s);
      var k := MarkerRun(s);
      var k2 := if k < |s| && s[k] == '.' then k + 1 else k;
      && k2 <= |s| - |r| && r == s[|s| - |r|..]
      && (forall i :: k2 <= i < |s| - |r| ==> IsSpace(s[i]))
      && (r == [] || !IsSpace(r[0]))
  {
  }

  /** The suffix of `s` from position `k` on, with its leading white space
      removed, described by positions of `s` itself. */
  function TrimFrom(s: string, k: nat): (r: string)
    requires k <= |s|
    ensures k <= |s| - |r| && r == s[|s| - |r|..]
    ensures r == [] || !IsSpace(r[0])
    ensures forall i :: k <= i < |s| - |r| ==> IsSpace(s[i])
  {
    var t := s[k..];
    var r := TrimStart(t);
    assert forall i :: k <= i < |s| - |r| ==> s[i] == t[i - k];
    assert t[|t| - |r|..] == s[|s| - |r|..];
    r
  }

  /** One line of the instructions as displayed: trimmed, marker removed. */
  function CleanLine(line: string): string
  {
    StripMarker(Trim(line))
  }

  /** Nothing the page displays starts or ends with white space. */
  lemma CleanLineIsTrimmed(line: string)
    ensures var r := CleanLine(line);
      r == [] || (!IsSpace(r[0]) && !IsSpace(r[|r| - 1]))
  {
    var t := Trim(line);
    var r := StripMarker(t);
    if MarkerRun(t) > 0 && r != [] {
      LastOfSuffix(t, r);
    }
  }

  lemma LastOfSuffix(t: string, r: string)
    requires r != [] && |r| <= |t| && r == t[|t| - |r|..]
    ensures r[|r| - 1] == t[|t| - 1]
  {
  }

  /** A line without a marker is only trimmed. */
  lemma UnmarkedLineIsTrimmed(line: string)
    requires Trim(line) == [] || !IsMarker(Trim(line)[0])
    ensures CleanLine(line) == Trim(line)
  {
  }

  lemma TrimOfTrimmed(s: string)
    requires s == [] || (!IsSpace(s[0]) && !IsSpace(s[|s| - 1]))
    ensures Trim(s) == s
  {
  }

  /** One space, then text: trimming the start drops just the space. */
  lemma TrimStartOneSpace(s: string)
    requires |s| >= 2 && IsSpace(s[0]) && !IsSpace(s[1])
    ensures TrimStart(s) == s[1..]
  {
  }

  lemma {:induction false} MarkerRunOf(s: string, k: nat)
    requires k <= |s| && (forall i :: 0 <= i < k ==> IsMarker(s[i])) && (k == |s| || !IsMarker(s[k]))
    ensures MarkerRun(s) == k
    decreases k
  {
    if k > 0 {
      MarkerRunOf(s[1..], k - 1);
    }
  }

  /** A trimmed line with a `k`-character marker and no full stop loses the
      marker and the one space after it. */
  lemma CleanMarkedLine(line: string, k: nat)
    requires 0 < k && k + 2 <= |line| && !IsSpace(line[0]) && !IsSpace(line[|line| - 1])
    requires (forall i :: 0 <= i < k ==> IsMarker(line[i])) && !IsMarker(line[k])
    requires line[k] != '.' && IsSpace(line[k]) && !IsSpace(line[k + 1])
    ensures CleanLine(line) == line[k + 1..]
  {
    TrimOfTrimmed(line);
    MarkerRunOf(line, k);
    TrimStartOneSpace(line[k..]);
    assert line[k..][1..] == line[k + 1..];
  }

  /** The same with a full stop after the marker. */
  lemma CleanNumberedLine(line: string, k: nat)
    requires 0 < k && k + 3 <= |line| && !IsSpace(line[0]) && !IsSpace(line[|line| - 1])
    requires (forall i :: 0 <= i < k ==> IsMarker(line[i]))
    requires line[k] == '.' && IsSpace(line[k + 1]) && !IsSpace(line[k + 2])
    ensures CleanLine(line) == line[k + 2..]
  {
    TrimOfTrimmed(line);
    MarkerRunOf(line, k);
    TrimStartOneSpace(line[k + 1..]);
    assert line[k + 1..][1..] == line[k + 2..];
  }

  lemma NumberedLine()
    ensures CleanLine("1. Read") == "Read"
  {
    var s := "1. Read";
    CleanNumberedLine(s, 1);
    assert s[3..] == "Read";
  }

  /** A line that starts with a number loses the number too. */
  lemma YearLosesNumber()
    ensures CleanLine("2024 exam") == "exam"
  {
    var s := "2024 exam";
    CleanMarkedLine(s, 4);
    assert s[5..] == "exam";
  }

  /** A line that is only a marker is dropped from the list. */
  lemma BareMarkerDropped()
    ensures CleanLine("3.") == ""
  {
    TrimOfTrimmed("3.");
    MarkerRunOf("3.", 1);
  }

  lemma BulletLine()
    ensures CleanLine("\U{2022} Bring ID") == "Bring ID"
  {
    var s := "\U{2022} Bring ID";
    CleanMarkedLine(s, 1);
    assert s[2..] == "Bring ID";
  }

  function Lines(text: string): seq<string>
  {
    SplitOn(text, '\n')
  }

  function CleanLines(lines: seq<string>): (r: seq<string>)
    ensures |r| == |lines|
    ensures forall i :: 0 <= i < |r| ==> r[i] == CleanLine(lines[i])
  {
    seq(|lines|, i requires 0 <= i < |lines| => CleanLine(lines[i]))
  }

  predicate NonEmpty(s: string) { s != [] }

  const DefaultInstructions: seq<string> := [
    "No calculators allowed.",
    "Each correct answer earns marks, wrong answers may have negative marks.",
    "Exam auto-submits when time ends."
  ]

  /** The instruction list: the cleaned non-empty lines of the paper's
      text, or the three default items when the text is missing or empty. */
  function Instructions(text: Option<string>): seq<string>
  {
    if text.None? || text.value == "" then DefaultInstructions
    else Filter(CleanLines(Lines(text.value)), NonEmpty)
  }

  /** No white space at either end (or nothing at all). */
  predicate Trimmed(s: string)
  {
    s == [] || (!IsSpace(s[0]) && !IsSpace(s[|s| - 1]))
  }

  lemma AllCleanTrimmed(lines: seq<string>)
    ensures forall x :: x in CleanLines(lines) ==> Trimmed(x)
  {
    var ls := CleanLines(lines);
    forall i | 0 <= i < |ls| ensures Trimmed(ls[i]) {
      CleanLineIsTrimmed(lines[i]);
    }
  }

  /** Every parsed item is non-empty, trimmed and the cleaned form of one
      of the input lines; there are no more items than lines, and every
      line that cleans to something non-empty is listed. */
  lemma InstructionsFacts(text: string)
    requires text != ""
    ensures var r := Instructions(Some(text)); var ls := CleanLines(Lines(text));
      && |r| <= |Lines(text)|
      && (forall i :: 0 <= i < |r| ==> r[i] != [] && Trimmed(r[i]))
      && (forall i :: 0 <= i < |r| ==> r[i] in ls)
      && (forall j :: 0 <= j < |ls| && ls[j] != [] ==> ls[j] in r)
  {
    var lines := Lines(text);
    var ls := CleanLines(lines);
    var r := Filter(ls, NonEmpty);
    assert r == Instructions(Some(text));
    FilterMembers(ls, NonEmpty);
    AllCleanTrimmed(lines);
    forall i | 0 <= i < |r| ensures r[i] != [] && Trimmed(r[i]) {
      assert NonEmpty(r[i]) && r[i] in ls;
    }
    forall j | 0 <= j < |ls| && ls[j] != [] ensures ls[j] in r {
      assert NonEmpty(ls[j]);
    }
  }

  /** A missing or empty text shows the defaults; a text whose every line
      is blank or a bare marker shows nothing. */
  lemma InstructionsDefaults(text: Option<string>)
    ensures text.None? || text == Some("") ==> Instructions(text) == DefaultInstructions
    ensures text.Some? && text.value != "" && (forall l :: l in Lines(text.value) ==> CleanLine(l) == [])
            ==> Instructions(text) == []
  {
    if text.Some? && text.value != "" && (forall l :: l in Lines(text.value) ==> CleanLine(l) == []) {
      var ls := CleanLines(Lines(text.value));
      forall i | 0 <= i < |ls| ensures !NonEmpty(ls[i]) {
        assert Lines(text.value)[i] in Lines(text.value);
      }
      FilterNone(ls, NonEmpty);
    }
  }

  /* ---------------------------------------------------------------- */
  /* Negative marking                                                  */
  /* ---------------------------------------------------------------- */

  /** The label under "Negative marking". */
  function NegativeLabel(p: Paper): (r: string)
    ensures r == "0.25" <==> p.hasNegativeMarking
    ensures r == "0" <==> !p.hasNegativeMarking
  {
    if p.hasNegativeMarking then "0.25" else "0"
  }

  /** The label is the penalty the exam page applies in every section that
      does not state its own. */
  lemma NegativeLabelMatchesScoring(p: Paper, s: Section)
    requires s.negativeMarks.None?
    ensures NegativeLabel(p) == "0.25" <==> SectionPenalty(p, s) == 0.25
    ensures NegativeLabel(p) == "0" <==> SectionPenalty(p, s) == 0.0
  {
  }
}
