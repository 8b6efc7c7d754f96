/** The records the list pages receive from the backend (question papers
    and competitions, as far as the pages read them) and the rule every
    infinitely scrolled list uses to ask for its next page. */
module Listing {
  import opened Common

  datatype PaperSummary = PaperSummary(
    id: string,
    title: string,
    examName: Option<string>,
    duration: Option<int>,
    totalQuestions: Option<int>,
    totalQueCount: Option<int>)

  datatype Competition = Competition(
    id: string,
    title: Option<string>,
    name: Option<string>,
    status: Option<string>,
    durationInMinutes: Option<int>)

  datatype SubCategory = SubCategory(id: string, isActive: bool)

  function ActiveSubCategories(subs: seq<SubCategory>): (r: seq<SubCategory>)
    ensures forall i :: 0 <= i < |r| ==> r[i].isActive
    ensures |r| <= |subs|
  {
    Filter(subs, (s: SubCategory) => s.isActive)
  }

  /** Every active subcategory is offered. */
  lemma ActiveAllOffered(subs: seq<SubCategory>)
    ensures forall i :: 0 <= i < |subs| && subs[i].isActive ==> subs[i] in ActiveSubCategories(subs)
  {
    FilterMembers(subs, (s: SubCategory) => s.isActive);
  }

  /** `getNextPageParam`: another page exists only when the last page
      fetched came back full, and it is the page after those fetched. */
  function NextPage<T>(pages: seq<seq<T>>, limit: nat): (r: Option<nat>)
    ensures r.Some? <==> |pages| > 0 && |pages[|pages| - 1]| >= limit
    ensures r.Some? ==> r.value == |pages| + 1
  {
    if |pages| == 0 || |pages[|pages| - 1]| < limit then None else Some(|pages| + 1)
  }

  /** `pages.flatMap(page => page)`: every item of every page, in order. */
  function Loaded<T>(pages: seq<seq<T>>): seq<T>
  {
    Flatten(pages)
  }

  /** Item `i` of page `j` sits after all the items of earlier pages, and
      fetching one more page only appends. */
  lemma LoadedFacts<T>(pages: seq<seq<T>>, next: seq<T>, j: nat, i: nat)
    requires j < |pages| && i < |pages[j]|
    ensures |Loaded(pages)| == SumLengths(pages)
    ensures SumLengths(pages[..j]) + i < |Loaded(pages)|
    ensures Loaded(pages)[SumLengths(pages[..j]) + i] == pages[j][i]
    ensures Loaded(pages + [next]) == Loaded(pages) + next
  {
    FlattenIndex(pages, j, i);
    assert (pages + [next])[..|pages|] == pages;
  }

  /** While every page comes back full, `n` fetched pages hold `n` times
      the page size, and page `n + 1` is asked for next. */
  lemma {:induction false} FullPages<T>(pages: seq<seq<T>>, limit: nat)
    requires |pages| > 0 && forall j :: 0 <= j < |pages| ==> |pages[j]| == limit
    ensures |Loaded(pages)| == |pages| * limit
    ensures NextPage(pages, limit) == Some(|pages| + 1)
    decreases |pages|
  {
    FlattenLength(pages);
    var init := pages[..|pages| - 1];
    if |init| > 0 {
      FullPages(init, limit);
      FlattenLength(init);
    }
  }
}
