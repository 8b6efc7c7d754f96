/** The public landing page: four headline counts and four cards, each
    showing the first four categories, subjects, competitions or papers. */
module Landing {
  import opened Common
  import opened Listing
  import opened Home

  /** `title || name || "Competition"`. */
  function CompetitionTitle(c: Competition): (r: string)
    ensures r != ""
    ensures c.title.Some? && c.title.value != "" ==> r == c.title.value
    ensures (c.title.None? || c.title.value == "") && c.name.Some? && c.name.value != "" ==> r == c.name.value
    ensures (c.title.None? || c.title.value == "") && (c.name.None? || c.name.value == "") ==> r == "Competition"
  {
    if c.title.Some? && c.title.value != "" then c.title.value
    else if c.name.Some? && c.name.value != "" then c.name.value
    else "Competition"
  }

  /** A headline count: the length of the list, 0 until it loads. */
  function Stat<T>(data: Option<seq<T>>): (n: nat)
    ensures data.None? ==> n == 0
    ensures data.Some? ==> n == |data.value|
  {
    if data.Some? then |data.value| else 0
  }

  datatype Item = Item(id: string, primary: string, secondary: string)

  /** Cards show at most this many entries. */
  const CardSize: nat := 4

  /** A category or a subject: a name and an optional description. */
  datatype Described = Described(id: string, name: string, description: Option<string>)

  /** The category and subject cards: the name, and the description or a
      fixed line when there is none. */
  function DescribedItems(data: Option<seq<Described>>, fallback: string): (r: seq<Item>)
    ensures data.None? ==> r == []
    ensures data.Some? ==> |r| == (if |data.value| < CardSize then |data.value| else CardSize)
    ensures data.Some? ==> forall i :: 0 <= i < |r| ==>
      var d := data.value[i];
      r[i] == Item(d.id, d.name, if d.description.Some? && d.description.value != "" then d.description.value else fallback)
  {
    if data.None? then []
    else
      var shown := Take(data.value, CardSize);
      seq(|shown|, i requires 0 <= i < |shown| =>
        var d := shown[i];
        Item(d.id, d.name, if d.description.Some? && d.description.value != "" then d.description.value else fallback))
  }

  /** The competition card: title, then status and duration. */
  function CompetitionItems(data: Option<seq<Competition>>): (r: seq<Item>)
    ensures data.None? ==> r == []
    ensures data.Some? ==> |r| == (if |data.value| < CardSize then |data.value| else CardSize)
    ensures data.Some? ==> forall i :: 0 <= i < |r| ==>
      r[i] == Item(data.value[i].id, CompetitionTitle(data.value[i]),
                   CompetitionStatus(data.value[i]) + " \U{00B7} " + FormatDuration(data.value[i].durationInMinutes))
  {
    if data.None? then []
    else
      var shown := Take(data.value, CardSize);
      seq(|shown|, i requires 0 <= i < |shown| =>
        Item(shown[i].id, CompetitionTitle(shown[i]),
             CompetitionStatus(shown[i]) + " \U{00B7} " + FormatDuration(shown[i].durationInMinutes)))
  }

  /** The paper card: title, then the question count and the duration. */
  function PaperItems(data: Option<seq<PaperSummary>>): (r: seq<Item>)
    ensures data.None? ==> r == []
    ensures data.Some? ==> |r| == (if |data.value| < CardSize then |data.value| else CardSize)
    ensures data.Some? ==> forall i :: 0 <= i < |r| ==>
      r[i] == Item(data.value[i].id, PaperTitle(data.value[i]),
                   TotalLabel(PaperTotal(data.value[i])) + " \U{00B7} " + DurationLabel(data.value[i].duration))
  {
    if data.None? then []
    else
      var shown := Take(data.value, CardSize);
      seq(|shown|, i requires 0 <= i < |shown| =>
        Item(shown[i].id, PaperTitle(shown[i]),
             TotalLabel(PaperTotal(shown[i])) + " \U{00B7} " + DurationLabel(shown[i].duration)))
  }

  /** A card never lists more entries than its headline counts. */
  lemma CardsWithinStats(papers: Option<seq<PaperSummary>>, competitions: Option<seq<Competition>>)
    ensures |PaperItems(papers)| <= Stat(papers) && |PaperItems(papers)| <= CardSize
    ensures |CompetitionItems(competitions)| <= Stat(competitions) && |CompetitionItems(competitions)| <= CardSize
  {
  }
}
