/** The browser-side store of generated custom papers: one JSON object in
    local storage, from paper id to paper, read afresh by every operation. */
module CustomPapers {
  import opened Common
  import opened PaperModel

  datatype Difficulty = Easy | Medium | Hard

  /** `createdAt` and `updatedAt` are the timestamps the stored date strings
      denote, in milliseconds. */
  datatype CustomPaper = CustomPaper(
    id: string, userId: string, title: string, subject: string,
    questionCount: int, duration: int, difficulty: Difficulty,
    generatedPaper: Paper, createdAt: int, updatedAt: int)

  /** A paper as listed: everything but the generated paper. */
  datatype ListItem = ListItem(
    id: string, userId: string, title: string, subject: string,
    questionCount: int, duration: int, difficulty: Difficulty,
    createdAt: int, updatedAt: int)

  /* ---------------------------------------------------------------- */
  /* The stored object: entries in key order                          */
  /* ---------------------------------------------------------------- */

  type Entry = (string, CustomPaper)

  predicate HasKey(e: seq<Entry>, k: string)
  {
    exists i :: 0 <= i < |e| && e[i].0 == k
  }

  predicate UniqueKeys(e: seq<Entry>)
  {
    forall i, j :: 0 <= i < j < |e| ==> e[i].0 != e[j].0
  }

  /** `papers[k] ?? null`. */
  function Lookup(e: seq<Entry>, k: string): (r: Option<CustomPaper>)
    ensures r.Some? <==> HasKey(e, k)
    ensures r.Some? ==> exists i :: 0 <= i < |e| && e[i] == (k, r.value)
  {
    match FindFirst(e, (x: Entry) => x.0 == k)
    case None => None
    case Some(i) => Some(e[i].1)
  }

  /** `papers[k] = v`: an existing key keeps its place, a new one goes last. */
  function Put(e: seq<Entry>, k: string, v: CustomPaper): (r: seq<Entry>)
    ensures |r| == if HasKey(e, k) then |e| else |e| + 1
  {
    if e == [] then [(k, v)]
    else if e[0].0 == k then [(k, v)] + e[1..]
    else
      HasKeyCons(e, k);
      [e[0]] + Put(e[1..], k, v)
  }

  /** `delete papers[k]`. */
  function Remove(e: seq<Entry>, k: string): seq<Entry>
  {
    if e == [] then []
    else if e[0].0 == k then Remove(e[1..], k)
    else [e[0]] + Remove(e[1..], k)
  }

  lemma HasKeyCons(e: seq<Entry>, k: string)
    requires e != []
    ensures HasKey(e, k) <==> e[0].0 == k || HasKey(e[1..], k)
  {
    if HasKey(e[1..], k) {
      var i :| 0 <= i < |e[1..]| && e[1..][i].0 == k;
      assert e[i + 1] == e[1..][i];
    }
    if HasKey(e, k) && e[0].0 != k {
      var i :| 0 <= i < |e| && e[i].0 == k;
      assert e[1..][i - 1] == e[i];
    }
  }

  lemma UniqueTail(e: seq<Entry>)
    requires e != [] && UniqueKeys(e)
    ensures UniqueKeys(e[1..]) && !HasKey(e[1..], e[0].0)
  {
    forall m | 0 <= m < |e| - 1 ensures e[1..][m].0 != e[0].0 {
      assert e[1..][m] == e[m + 1];
    }
  }

  lemma UniqueCons(x: Entry, rest: seq<Entry>)
    requires UniqueKeys(rest) && !HasKey(rest, x.0)
    ensures UniqueKeys([x] + rest)
  {
    var r := [x] + rest;
    forall i, j | 0 <= i < j < |r| ensures r[i].0 != r[j].0 {
      assert r[j] == rest[j - 1];
      if i > 0 { assert r[i] == rest[i - 1]; }
    }
  }

  lemma LookupCons(x: Entry, rest: seq<Entry>, k: string)
    ensures Lookup([x] + rest, k) == if x.0 == k then Some(x.1) else Lookup(rest, k)
  {
    var e := [x] + rest;
    assert e[0] == x;
    if x.0 != k {
      var p := (y: Entry) => y.0 == k;
      match FindFirst(rest, p)
      case None =>
        forall j | 0 <= j < |e| ensures !p(e[j]) {
          if j > 0 { assert e[j] == rest[j - 1]; }
        }
      case Some(i) =>
        assert e[i + 1] == rest[i];
        forall j | 0 <= j < i + 1 ensures !p(e[j]) {
          if j > 0 { assert e[j] == rest[j - 1]; }
        }
    }
  }

  /** Storing under a key: the keys stay distinct, the key now gives the
      new paper, every other key gives what it gave, and a new key goes
      last. */
  lemma {:induction false} PutFacts(e: seq<Entry>, k: string, v: CustomPaper)
    requires UniqueKeys(e)
    ensures UniqueKeys(Put(e, k, v))
    ensures HasKey(Put(e, k, v), k)
    ensures forall k' :: HasKey(Put(e, k, v), k') <==> k' == k || HasKey(e, k')
    ensures Lookup(Put(e, k, v), k) == Some(v)
    ensures forall k' :: k' != k ==> Lookup(Put(e, k, v), k') == Lookup(e, k')
    ensures !HasKey(e, k) ==> Put(e, k, v) == e + [(k, v)]
    decreases |e|
  {
    var r := Put(e, k, v);
    if e == [] {
      assert r == [(k, v)] && r[0].0 == k;
      assert [(k, v)][1..] == [];
      HasKeyCons(r, k);
      forall k' ensures HasKey(r, k') <==> k' == k { HasKeyCons(r, k'); }
      LookupCons((k, v), [], k);
      assert [(k, v)] + [] == [(k, v)];
      forall k' | k' != k ensures Lookup(r, k') == Lookup(e, k') {
        LookupCons((k, v), [], k');
      }
    } else {
      UniqueTail(e);
      assert e == [e[0]] + e[1..];
      if e[0].0 == k {
        assert r == [(k, v)] + e[1..];
        UniqueCons((k, v), e[1..]);
        forall k' ensures HasKey(r, k') <==> k' == k || HasKey(e, k') {
          HasKeyCons(r, k');
          HasKeyCons(e, k');
          assert r[1..] == e[1..];
        }
        LookupCons((k, v), e[1..], k);
        forall k' | k' != k ensures Lookup(r, k') == Lookup(e, k') {
          LookupCons((k, v), e[1..], k');
          LookupCons(e[0], e[1..], k');
        }
        HasKeyCons(r, k);
      } else {
        var rest := Put(e[1..], k, v);
        PutFacts(e[1..], k, v);
        assert r == [e[0]] + rest;
        UniqueCons(e[0], rest);
        forall k' ensures HasKey(r, k') <==> k' == k || HasKey(e, k') {
          HasKeyCons(r, k');
          HasKeyCons(e, k');
          assert r[1..] == rest;
        }
        LookupCons(e[0], rest, k);
        forall k' | k' != k ensures Lookup(r, k') == Lookup(e, k') {
          LookupCons(e[0], rest, k');
          LookupCons(e[0], e[1..], k');
        }
        HasKeyCons(e, k);
      }
    }
  }

  /** Deleting a key: the keys stay distinct, the key gives nothing, every
      other key gives what it gave. */
  lemma {:induction false} RemoveFacts(e: seq<Entry>, k: string)
    requires UniqueKeys(e)
    ensures UniqueKeys(Remove(e, k))
    ensures forall k' :: HasKey(Remove(e, k), k') <==> k' != k && HasKey(e, k')
    ensures Lookup(Remove(e, k), k).None?
    ensures forall k' :: k' != k ==> Lookup(Remove(e, k), k') == Lookup(e, k')
    decreases |e|
  {
    var r := Remove(e, k);
    if e != [] {
      UniqueTail(e);
      assert e == [e[0]] + e[1..];
      var rest := Remove(e[1..], k);
      RemoveFacts(e[1..], k);
      if e[0].0 == k {
        assert r == rest;
        forall k' ensures HasKey(r, k') <==> k' != k && HasKey(e, k') {
          HasKeyCons(e, k');
        }
        forall k' | k' != k ensures Lookup(r, k') == Lookup(e, k') {
          LookupCons(e[0], e[1..], k');
        }
      } else {
        assert r == [e[0]] + rest;
        UniqueCons(e[0], rest);
        forall k' ensures HasKey(r, k') <==> k' != k && HasKey(e, k') {
          HasKeyCons(r, k');
          HasKeyCons(e, k');
          assert r[1..] == rest;
        }
        LookupCons(e[0], rest, k);
        forall k' | k' != k ensures Lookup(r, k') == Lookup(e, k') {
          LookupCons(e[0], rest, k');
          LookupCons(e[0], e[1..], k');
        }
      }
    }
  }

  function Values(e: seq<Entry>): (r: seq<CustomPaper>)
    ensures |r| == |e|
    ensures forall i :: 0 <= i < |e| ==> r[i] == e[i].1
  {
    seq(|e|, i requires 0 <= i < |e| => e[i].1)
  }

  /* ---------------------------------------------------------------- */
  /* Newest first                                                     */
  /* ---------------------------------------------------------------- */

  /** Puts `x` after every paper at least as new, before the first older one. */
  function InsertNewest(sorted: seq<CustomPaper>, x: CustomPaper): seq<CustomPaper>
  {
    if sorted == [] then [x]
    else if sorted[0].createdAt >= x.createdAt then [sorted[0]] + InsertNewest(sorted[1..], x)
    else [x] + sorted
  }

  /** The stable sort by `createdAt`, newest first. */
  function SortNewest(s: seq<CustomPaper>): seq<CustomPaper>
  {
    if s == [] then [] else InsertNewest(SortNewest(s[..|s| - 1]), s[|s| - 1])
  }

  lemma {:induction false} InsertNewestPerm(sorted: seq<CustomPaper>, x: CustomPaper)
    ensures multiset(InsertNewest(sorted, x)) == multiset(sorted) + multiset{x}
    decreases |sorted|
  {
    if sorted != [] && sorted[0].createdAt >= x.createdAt {
      InsertNewestPerm(sorted[1..], x);
      assert sorted == [sorted[0]] + sorted[1..];
    }
  }

  lemma {:induction false} SortNewestPerm(s: seq<CustomPaper>)
    ensures multiset(SortNewest(s)) == multiset(s)
    decreases |s|
  {
    if s != [] {
      var init, last := s[..|s| - 1], s[|s| - 1];
      var sorted := SortNewest(init);
      assert SortNewest(s) == InsertNewest(sorted, last);
      SortNewestPerm(init);
      InsertNewestPerm(sorted, last);
      SnocMultiset(s);
    }
  }

  lemma SnocMultiset<T>(s: seq<T>)
    requires s != []
    ensures multiset(s) == multiset(s[..|s| - 1]) + multiset{s[|s| - 1]}
  {
    assert s == s[..|s| - 1] + [s[|s| - 1]];
  }

  function StripAll(s: seq<CustomPaper>): (r: seq<ListItem>)
    ensures |r| == |s| && forall i :: 0 <= i < |s| ==> r[i] == Strip(s[i])
  {
    seq(|s|, i requires 0 <= i < |s| => Strip(s[i]))
  }

  /** Every paper of `v` has its item among the items of a rearrangement. */
  lemma StripCovers(v: seq<CustomPaper>, sorted: seq<CustomPaper>)
    requires multiset(sorted) == multiset(v)
    ensures forall k :: 0 <= k < |v| ==> Strip(v[k]) in StripAll(sorted)
  {
    var r := StripAll(sorted);
    PermMembers(v, sorted);
    forall k | 0 <= k < |v| ensures Strip(v[k]) in r {
      var i :| 0 <= i < |sorted| && sorted[i] == v[k];
      assert r[i] == Strip(v[k]);
    }
  }

  /** A permutation has the same length and only the original's elements. */
  lemma PermMembers<T>(s: seq<T>, t: seq<T>)
    requires multiset(s) == multiset(t)
    ensures |s| == |t| && forall i :: 0 <= i < |s| ==> s[i] in t
  {
    assert |multiset(s)| == |multiset(t)|;
    forall i | 0 <= i < |s| ensures s[i] in t {
      assert s[i] in multiset(t);
    }
  }

  predicate NewestFirst(s: seq<CustomPaper>)
  {
    forall i, j :: 0 <= i < j < |s| ==> s[i].createdAt >= s[j].createdAt
  }

  function CreatedAt(t: int): CustomPaper -> bool
  {
    (c: CustomPaper) => c.createdAt == t
  }

  /** Inserting into papers no newer than `b` a paper no newer than `b`
      keeps every paper no newer than `b`. */
  lemma InsertedNoNewer(sorted: seq<CustomPaper>, x: CustomPaper, b: int)
    requires forall i :: 0 <= i < |sorted| ==> b >= sorted[i].createdAt
    requires b >= x.createdAt
    ensures forall j :: 0 <= j < |InsertNewest(sorted, x)| ==> b >= InsertNewest(sorted, x)[j].createdAt
  {
    var r := InsertNewest(sorted, x);
    InsertNewestPerm(sorted, x);
    forall j | 0 <= j < |r| ensures b >= r[j].createdAt {
      assert r[j] in multiset(r);
      if r[j] != x {
        assert r[j] in multiset(sorted);
      }
    }
  }

  lemma {:induction false} InsertNewestSorted(sorted: seq<CustomPaper>, x: CustomPaper)
    requires NewestFirst(sorted)
    ensures NewestFirst(InsertNewest(sorted, x))
    decreases |sorted|
  {
    var r := InsertNewest(sorted, x);
    if sorted != [] && sorted[0].createdAt >= x.createdAt {
      var rest := InsertNewest(sorted[1..], x);
      InsertNewestSorted(sorted[1..], x);
      InsertedNoNewer(sorted[1..], x, sorted[0].createdAt);
      assert r == [sorted[0]] + rest;
      forall i, j | 0 <= i < j < |r| ensures r[i].createdAt >= r[j].createdAt {
        assert r[j] == rest[j - 1];
        if i > 0 { assert r[i] == rest[i - 1]; }
      }
    } else if sorted != [] {
      assert r == [x] + sorted;
      forall i, j | 0 <= i < j < |r| ensures r[i].createdAt >= r[j].createdAt {
        assert r[j] == sorted[j - 1];
        if i > 0 { assert r[i] == sorted[i - 1]; }
      }
    }
  }

  lemma {:induction false} InsertNewestFilter(sorted: seq<CustomPaper>, x: CustomPaper, t: int)
    requires NewestFirst(sorted)
    ensures Filter(InsertNewest(sorted, x), CreatedAt(t))
            == Filter(sorted, CreatedAt(t)) + (if x.createdAt == t then [x] else [])
    decreases |sorted|
  {
    var p := CreatedAt(t);
    if sorted == [] {
      FilterCons(x, [], p);
      assert [x] + [] == [x];
    } else if sorted[0].createdAt >= x.createdAt {
      InsertNewestFilter(sorted[1..], x, t);
      AtLeastAsNew(sorted, x, t);
    } else {
      NewerThanAll(sorted, x, t);
    }
  }

  /** A paper no newer than the first sorted one goes after it. */
  lemma AtLeastAsNew(sorted: seq<CustomPaper>, x: CustomPaper, t: int)
    requires sorted != [] && sorted[0].createdAt >= x.createdAt
    requires Filter(InsertNewest(sorted[1..], x), CreatedAt(t))
             == Filter(sorted[1..], CreatedAt(t)) + (if x.createdAt == t then [x] else [])
    ensures Filter(InsertNewest(sorted, x), CreatedAt(t))
            == Filter(sorted, CreatedAt(t)) + (if x.createdAt == t then [x] else [])
  {
    var s0, tail := sorted[0], sorted[1..];
    assert InsertNewest(sorted, x) == [s0] + InsertNewest(tail, x);
    assert [s0] + tail == sorted;
    FilterConsSuffix(s0, InsertNewest(tail, x), tail, if x.createdAt == t then [x] else [], CreatedAt(t));
  }

  /** A paper newer than every sorted one goes first and has no equals. */
  lemma NewerThanAll(sorted: seq<CustomPaper>, x: CustomPaper, t: int)
    requires NewestFirst(sorted) && sorted != [] && sorted[0].createdAt < x.createdAt
    ensures InsertNewest(sorted, x) == [x] + sorted
    ensures Filter([x] + sorted, CreatedAt(t))
            == Filter(sorted, CreatedAt(t)) + (if x.createdAt == t then [x] else [])
  {
    FilterCons(x, sorted, CreatedAt(t));
    if x.createdAt == t {
      FilterNone(sorted, CreatedAt(t));
    }
  }

  lemma {:induction false} SortNewestSorted(s: seq<CustomPaper>)
    ensures NewestFirst(SortNewest(s))
    decreases |s|
  {
    if s != [] {
      SortNewestSorted(s[..|s| - 1]);
      InsertNewestSorted(SortNewest(s[..|s| - 1]), s[|s| - 1]);
    }
  }

  lemma {:induction false} SortNewestFilter(s: seq<CustomPaper>, t: int)
    ensures Filter(SortNewest(s), CreatedAt(t)) == Filter(s, CreatedAt(t))
    decreases |s|
  {
    if s != [] {
      var init, x := s[..|s| - 1], s[|s| - 1];
      assert s == init + [x];
      assert [x][1..] == [];
      FilterAppend(init, [x], CreatedAt(t));
      SortNewestSorted(init);
      SortNewestFilter(init, t);
      InsertNewestFilter(SortNewest(init), x, t);
    }
  }

  /** Newest first; a rearrangement of its input; and papers created at the
      same instant keep their order: together these fix the result of a
      stable sort. */
  lemma SortNewestFacts(s: seq<CustomPaper>)
    ensures NewestFirst(SortNewest(s))
    ensures multiset(SortNewest(s)) == multiset(s)
    ensures forall t :: Filter(SortNewest(s), CreatedAt(t)) == Filter(s, CreatedAt(t))
  {
    SortNewestSorted(s);
    SortNewestPerm(s);
    forall t ensures Filter(SortNewest(s), CreatedAt(t)) == Filter(s, CreatedAt(t)) {
      SortNewestFilter(s, t);
    }
  }

  function Strip(p: CustomPaper): (r: ListItem)
    ensures r.id == p.id && r.createdAt == p.createdAt && r.title == p.title
  {
    ListItem(p.id, p.userId, p.title, p.subject, p.questionCount, p.duration, p.difficulty, p.createdAt, p.updatedAt)
  }

  /** How many of `papers` were created at or after `startOfToday`. */
  function SinceStart(startOfToday: int): CustomPaper -> bool
  {
    (c: CustomPaper) => c.createdAt >= startOfToday
  }

  function CountSince(papers: seq<CustomPaper>, startOfToday: int): (n: nat)
    ensures n <= |papers|
  {
    |Filter(papers, SinceStart(startOfToday))|
  }

  /** Saving a new paper made today adds one to today's count; saving one
      made before today leaves it. */
  lemma CountAfterNewPaper(e: seq<Entry>, v: CustomPaper, startOfToday: int)
    requires UniqueKeys(e) && !HasKey(e, v.id)
    ensures CountSince(Values(Put(e, v.id, v)), startOfToday)
            == CountSince(Values(e), startOfToday) + (if v.createdAt >= startOfToday then 1 else 0)
  {
    var p, w := SinceStart(startOfToday), Values(e);
    PutFacts(e, v.id, v);
    assert Values(Put(e, v.id, v)) == w + [v];
    FilterAppend(w, [v], p);
    assert Filter([v], p) == if p(v) then [v] else [] by {
      assert [v][1..] == [];
    }
  }

  /* ---------------------------------------------------------------- */
  /* The storage slot                                                 */
  /* ---------------------------------------------------------------- */

  /** The local-storage slot: empty, holding text that does not parse, or
      holding a parsed object. */
  datatype Stored = Absent | Unparseable | Saved(entries: seq<Entry>)

  class CustomPaperStore {
    var slot: Stored

    ghost predicate Valid()
      reads this
    {
      slot.Saved? ==> UniqueKeys(slot.entries)
    }

    constructor (initial: Stored)
      requires initial.Saved? ==> UniqueKeys(initial.entries)
      ensures Valid() && slot == initial
    {
      slot := initial;
    }

    /** What every operation reads: the stored object, or an empty one when
        nothing is stored or what is stored does not parse. */
    function Papers(): (r: seq<Entry>)
      reads this
      requires Valid()
      ensures UniqueKeys(r)
      ensures slot.Saved? ==> r == slot.entries
      ensures !slot.Saved? ==> r == []
    {
      if slot.Saved? then slot.entries else []
    }

    method Save(paper: CustomPaper)
      requires Valid()
      modifies this
      ensures Valid()
      ensures slot == Saved(Put(old(Papers()), paper.id, paper))
      ensures GetById(paper.id) == Some(paper)
      ensures forall k :: k != paper.id ==> GetById(k) == old(GetById(k))
    {
      var papers := Papers();
      PutFacts(papers, paper.id, paper);
      slot := Saved(Put(papers, paper.id, paper));
    }

    /** Removes the paper; writes back only when it was there, so an
        unreadable slot stays as it is. */
    method Delete(id: string)
      requires Valid()
      modifies this
      ensures Valid()
      ensures old(GetById(id)).Some? ==> slot == Saved(Remove(old(Papers()), id))
      ensures old(GetById(id)).None? ==> slot == old(slot)
      ensures GetById(id).None?
      ensures forall k :: k != id ==> GetById(k) == old(GetById(k))
    {
      var papers := Papers();
      if Lookup(papers, id).Some? {
        RemoveFacts(papers, id);
        slot := Saved(Remove(papers, id));
      }
    }

    function GetById(id: string): (r: Option<CustomPaper>)
      reads this
      requires Valid()
      ensures r.Some? ==> r.value in Values(Papers())
    {
      Lookup(Papers(), id)
    }

    /** The list page: every stored paper, newest first, without its
        generated paper. */
    function ListPapers(): (r: seq<ListItem>)
      reads this
      requires Valid()
      ensures |r| == |Papers()|
      ensures forall i, j :: 0 <= i < j < |r| ==> r[i].createdAt >= r[j].createdAt
      ensures forall i :: 0 <= i < |r| ==> exists k :: 0 <= k < |Papers()| && r[i] == Strip(Papers()[k].1)
      ensures forall k :: 0 <= k < |Papers()| ==> Strip(Papers()[k].1) in r
    {
      var sorted := SortNewest(Values(Papers()));
      SortNewestFacts(Values(Papers()));
      PermMembers(sorted, Values(Papers()));
      StripCovers(Values(Papers()), sorted);
      StripAll(sorted)
    }

    /** The papers created since the start of today, `startOfToday` being the
        local midnight the caller's clock gives. */
    function CreatedToday(startOfToday: int): (n: nat)
      reads this
      requires Valid()
      ensures n <= |Papers()|
    {
      CountSince(Values(Papers()), startOfToday)
    }
  }
}
