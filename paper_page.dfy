/** The "exam papers" page: a category, an active subcategory of it that
    is kept in step with the loaded list, a search box applied on demand,
    and the paged list of real exam papers that those select. */
module PaperPage {
  import opened Common
  import opened Listing

  /** Some active subcategory in `active` carries `id`. */
  predicate HasId(active: seq<SubCategory>, id: string)
  {
    exists i :: 0 <= i < |active| && active[i].id == id
  }

  /** The subcategory the page settles on: none without a category or
      without an active subcategory; the current one while it is still
      among the active ones; otherwise the first active one. `data` is the
      loaded subcategory list, absent while it loads. */
  function SyncedSub(category: Option<string>, selected: Option<string>, data: Option<seq<SubCategory>>): (r: Option<string>)
  {
    if category.None? then None
    else
      var active := ActiveSubCategories(if data.Some? then data.value else []);
      if |active| == 0 then None
      else if selected.None? || !HasId(active, selected.value) then Some(active[0].id)
      else selected
  }

  /** The settled choice is always an active subcategory of the loaded list
      (or none, exactly when there is no category or no active one), and a
      choice that is still active is kept. */
  lemma SyncedSubFacts(category: Option<string>, selected: Option<string>, data: Option<seq<SubCategory>>)
    ensures var active := ActiveSubCategories(if data.Some? then data.value else []);
      && (SyncedSub(category, selected, data).None? <==> category.None? || |active| == 0)
      && (SyncedSub(category, selected, data).Some? ==> HasId(active, SyncedSub(category, selected, data).value))
      && (category.Some? && selected.Some? && HasId(active, selected.value) ==> SyncedSub(category, selected, data) == selected)
  {
    var active := ActiveSubCategories(if data.Some? then data.value else []);
    if category.Some? && |active| > 0 {
      assert HasId(active, active[0].id);
    }
  }

  /** The effect settles in one step: running it again changes nothing. */
  lemma SyncIdempotent(category: Option<string>, selected: Option<string>, data: Option<seq<SubCategory>>)
    ensures SyncedSub(category, SyncedSub(category, selected, data), data) == SyncedSub(category, selected, data)
  {
    SyncedSubFacts(category, selected, data);
    SyncedSubFacts(category, SyncedSub(category, selected, data), data);
  }

  /** `appliedSearch.trim() || undefined`: a blank search sends no filter. */
  function SearchParam(applied: string): (r: Option<string>)
    ensures r.None? <==> Trim(applied) == ""
    ensures r.Some? ==> r.value == Trim(applied) && !IsSpace(r.value[0]) && !IsSpace(r.value[|r.value| - 1])
  {
    var t := Trim(applied);
    if t == "" then None else Some(t)
  }

  /** Real exam papers come ten to a page. */
  const RealExamPageSize: nat := 10

  datatype PapersRequest = PapersRequest(
    categoryId: string, subcategoryId: Option<string>, search: Option<string>, isRealExam: bool, page: nat, limit: nat)

  /** The request for page `page`, none (an empty page) without a category. */
  function PapersRequestFor(category: Option<string>, sub: Option<string>, applied: string, page: nat): (r: Option<PapersRequest>)
    ensures r.None? <==> category.None? || category.value == ""
    ensures r.Some? ==> r.value.categoryId == category.value && r.value.subcategoryId == sub
    ensures r.Some? ==> r.value.search == SearchParam(applied) && r.value.isRealExam
    ensures r.Some? ==> r.value.page == page && r.value.limit == RealExamPageSize
  {
    if category.None? || category.value == "" then None
    else Some(PapersRequest(category.value, sub, SearchParam(applied), true, page, RealExamPageSize))
  }

  function NextRealExamPage(pages: seq<seq<PaperSummary>>): (r: Option<nat>)
    ensures r.Some? <==> |pages| > 0 && |pages[|pages| - 1]| >= RealExamPageSize
    ensures r.Some? ==> r.value == |pages| + 1
  {
    NextPage(pages, RealExamPageSize)
  }

  /** The page's own state. */
  class PaperBrowser {
    var category: Option<string>
    var subCategory: Option<string>
    /** What the search box shows. */
    var searchQuery: string
    /** What the list is filtered by, set by the Search button. */
    var appliedSearch: string

    constructor ()
      ensures category.None? && subCategory.None? && searchQuery == "" && appliedSearch == ""
    {
      category := None;
      subCategory := None;
      searchQuery := "";
      appliedSearch := "";
    }

    /** Once the categories load, the first is chosen if none is yet. */
    method CategoriesLoaded(categories: seq<string>)
      modifies this
      ensures category == if old(category).None? && |categories| > 0 then Some(categories[0]) else old(category)
      ensures subCategory == old(subCategory) && searchQuery == old(searchQuery) && appliedSearch == old(appliedSearch)
    {
      if category.None? && |categories| > 0 {
        category := Some(categories[0]);
      }
    }

    /** A category button: the subcategory is cleared with it. */
    method PickCategory(c: string)
      modifies this
      ensures category == Some(c) && subCategory.None?
      ensures searchQuery == old(searchQuery) && appliedSearch == old(appliedSearch)
    {
      category := Some(c);
      subCategory := None;
    }

    /** The effect that keeps the subcategory in step with the loaded list. */
    method SyncSubCategory(data: Option<seq<SubCategory>>)
      modifies this
      ensures subCategory == SyncedSub(category, old(subCategory), data)
      ensures category == old(category) && searchQuery == old(searchQuery) && appliedSearch == old(appliedSearch)
    {
      if category.None? {
        subCategory := None;
        return;
      }
      var active := ActiveSubCategories(if data.Some? then data.value else []);
      if |active| == 0 {
        subCategory := None;
        return;
      }
      if subCategory.None? || !HasId(active, subCategory.value) {
        subCategory := Some(active[0].id);
      }
    }

    /** A subcategory button; only the active subcategories have one. */
    method PickSubCategory(data: seq<SubCategory>, i: nat)
      requires i < |ActiveSubCategories(data)|
      modifies this
      ensures subCategory == Some(ActiveSubCategories(data)[i].id)
      ensures category == old(category) && searchQuery == old(searchQuery) && appliedSearch == old(appliedSearch)
    {
      subCategory := Some(ActiveSubCategories(data)[i].id);
    }

    /** Typing changes the box, not the list. */
    method TypeSearch(text: string)
      modifies this
      ensures searchQuery == text && appliedSearch == old(appliedSearch)
      ensures category == old(category) && subCategory == old(subCategory)
    {
      searchQuery := text;
    }

    /** The Search button applies what the box shows. */
    method PressSearch()
      modifies this
      ensures appliedSearch == old(searchQuery) && searchQuery == old(searchQuery)
      ensures category == old(category) && subCategory == old(subCategory)
    {
      appliedSearch := searchQuery;
    }

    /** The request for page `page` of the list as it stands. */
    function Request(page: nat): (r: Option<PapersRequest>)
      reads this
      ensures r.Some? ==> r.value.search == SearchParam(appliedSearch) && r.value.subcategoryId == subCategory
    {
      PapersRequestFor(category, subCategory, appliedSearch, page)
    }
  }

  /** A subcategory picked from the buttons survives the effect: the
      effect replaces only a choice that is no longer active. */
  method PickedSubSurvivesSync(data: seq<SubCategory>, i: nat) returns (kept: Option<string>)
    requires i < |ActiveSubCategories(data)|
    ensures kept == Some(ActiveSubCategories(data)[i].id)
  {
    var page := new PaperBrowser();
    page.PickCategory("c");
    page.PickSubCategory(data, i);
    page.SyncSubCategory(Some(data));
    assert HasId(ActiveSubCategories(data), ActiveSubCategories(data)[i].id);
    kept := page.subCategory;
  }

  /** Typing alone never changes the filter the list is fetched with. */
  method TypingDoesNotSearch(text: string) returns (r: Option<PapersRequest>)
    ensures r == Some(PapersRequest("c", None, None, true, 1, RealExamPageSize))
  {
    var page := new PaperBrowser();
    page.PickCategory("c");
    page.TypeSearch(text);
    r := page.Request(1);
    assert Trim("") == "";
  }
}
