/** Rendering of mixed text and TeX: the text is split around `$$...$$`
    and `$...$` delimiters (the split keeps the delimited pieces), and each
    piece becomes display math, inline math or a text node of the
    container. */
module MathRenderer {
  import opened Common

  /* ---------------------------------------------------------------- */
  /* The delimiter pattern                                            */
  /* ---------------------------------------------------------------- */

  /** The first `$` at or after `k`. */
  function NextDollar(s: string, k: nat): (r: Option<nat>)
    ensures r.Some? ==> k <= r.value < |s| && s[r.value] == '$'
    ensures r.Some? ==> forall j :: k <= j < r.value ==> s[j] != '$'
    ensures r.None? ==> forall j :: k <= j < |s| ==> s[j] != '$'
    decreases |s| - k
  {
    if k >= |s| then None else if s[k] == '$' then Some(k) else NextDollar(s, k + 1)
  }

  /** The first `$$` starting at or after `k`. */
  function NextPair(s: string, k: nat): (r: Option<nat>)
    ensures r.Some? ==> k <= r.value && r.value + 1 < |s| && s[r.value] == '$' && s[r.value + 1] == '$'
    ensures r.None? ==> forall j :: k <= j && j + 1 < |s| ==> !(s[j] == '$' && s[j + 1] == '$')
    decreases |s| - k
  {
    if k + 1 >= |s| then None
    else if s[k] == '$' && s[k + 1] == '$' then Some(k)
    else NextPair(s, k + 1)
  }

  /** Where a match of `\$\$[\s\S]*?\$\$|\$[\s\S]*?\$` starting at `i`
      ends: the lazy `$$...$$` alternative is tried first, then `$...$`. */
  function MatchAt(s: string, i: nat): (r: Option<nat>)
    requires i < |s|
    ensures r.Some? <==> s[i] == '$' && NextDollar(s, i + 1).Some?
    ensures r.Some? ==> i + 2 <= r.value <= |s|
  {
    if s[i] != '$' then None
    else if i + 1 < |s| && s[i + 1] == '$' && NextPair(s, i + 2).Some? then
      assert NextDollar(s, i + 1) == Some(i + 1);
      Some(NextPair(s, i + 2).value + 2)
    else match NextDollar(s, i + 1)
      case Some(k) => Some(k + 1)
      case None => None
  }

  /** `content.split(pattern)` with the pattern's capture kept: the text
      before each match, the match itself, and the text after the last. */
  function SplitFrom(s: string, p: nat, q: nat): seq<string>
    requires p <= q <= |s|
    decreases |s| - q
  {
    if q == |s| then [s[p..]]
    else match MatchAt(s, q)
      case Some(e) => [s[p..q], s[q..e]] + SplitFrom(s, e, e)
      case None => SplitFrom(s, p, q + 1)
  }

  function SplitMath(s: string): seq<string>
  {
    SplitFrom(s, 0, 0)
  }

  /** A delimited piece: `$...$` with no `$` inside, or `$$...$$`. */
  predicate IsCapture(x: string)
  {
    && |x| >= 2 && x[0] == '$' && x[|x| - 1] == '$'
    && ((forall j :: 1 <= j < |x| - 1 ==> x[j] != '$')
        || (|x| >= 4 && x[1] == '$' && x[|x| - 2] == '$'))
  }

  predicate AtMostOneDollar(x: string)
  {
    forall a, b :: 0 <= a < b < |x| && x[a] == '$' ==> x[b] != '$'
  }

  /** The shape of a split: text, piece, text, ..., text; the text before a
      piece holds no `$`, the final text at most one. */
  predicate WellSplit(parts: seq<string>)
  {
    && |parts| % 2 == 1
    && (forall i :: 0 <= i < |parts| && i % 2 == 1 ==> IsCapture(parts[i]))
    && (forall i :: 0 <= i < |parts| - 1 && i % 2 == 0 ==> '$' !in parts[i])
    && AtMostOneDollar(parts[|parts| - 1])
  }

  lemma FlattenPair(x: string, y: string, rest: seq<string>)
    ensures Flatten([x, y] + rest) == x + y + Flatten(rest)
  {
    FlattenAppend([x, y], rest);
    assert [x, y][..1] == [x];
    assert [x][..0] == [];
    assert Flatten([x]) == x;
  }

  /** What the pattern matches is a delimited piece. */
  lemma MatchIsCapture(s: string, q: nat)
    requires q < |s| && MatchAt(s, q).Some?
    ensures IsCapture(s[q..MatchAt(s, q).value])
  {
    var e := MatchAt(s, q).value;
    var y := s[q..e];
    if q + 1 < |s| && s[q + 1] == '$' && NextPair(s, q + 2).Some? {
      assert e == NextPair(s, q + 2).value + 2;
    } else {
      var k := NextDollar(s, q + 1).value;
      assert e == k + 1;
      forall j | 1 <= j < |y| - 1 ensures y[j] != '$' {
        assert y[j] == s[q + j];
      }
    }
  }

  /** No `$` precedes a match in the text before it: such a `$` would have
      started a match itself. */
  lemma TextBeforeMatch(s: string, p: nat, q: nat)
    requires p <= q < |s| && MatchAt(s, q).Some?
    requires forall j :: p <= j < q ==> s[j] != '$' || NextDollar(s, j + 1).None?
    ensures '$' !in s[p..q]
  {
    forall j | p <= j < q ensures s[j] != '$' {
      if s[j] == '$' {
        assert false;
      }
    }
  }

  lemma WellSplitCons(x: string, y: string, rest: seq<string>)
    requires '$' !in x && IsCapture(y) && WellSplit(rest)
    ensures WellSplit([x, y] + rest)
  {
    var parts := [x, y] + rest;
    forall i | 0 <= i < |parts| && i % 2 == 1 ensures IsCapture(parts[i]) {
      if i > 1 { assert parts[i] == rest[i - 2]; }
    }
    forall i | 0 <= i < |parts| - 1 && i % 2 == 0 ensures '$' !in parts[i] {
      if i > 0 { assert parts[i] == rest[i - 2]; }
    }
  }

  lemma {:induction false} SplitFromFacts(s: string, p: nat, q: nat)
    requires p <= q <= |s|
    requires forall j :: p <= j < q ==> s[j] != '$' || NextDollar(s, j + 1).None?
    ensures WellSplit(SplitFrom(s, p, q))
    ensures Flatten(SplitFrom(s, p, q)) == s[p..]
    decreases |s| - q
  {
    if q == |s| {
      assert [s[p..]][..0] == [];
      forall a, b | 0 <= a < b < |s[p..]| && s[p..][a] == '$'
        ensures s[p..][b] != '$'
      {
        assert NextDollar(s, p + a + 1).None?;
      }
    } else {
      match MatchAt(s, q)
      case Some(e) =>
        SplitFromFacts(s, e, e);
        MatchIsCapture(s, q);
        TextBeforeMatch(s, p, q);
        WellSplitCons(s[p..q], s[q..e], SplitFrom(s, e, e));
        FlattenPair(s[p..q], s[q..e], SplitFrom(s, e, e));
        assert s[p..] == s[p..q] + s[q..e] + s[e..];
      case None =>
        SplitFromFacts(s, p, q + 1);
    }
  }

  /** The split loses nothing: its pieces join back to the content. */
  lemma SplitMathFacts(s: string)
    ensures WellSplit(SplitMath(s))
    ensures Flatten(SplitMath(s)) == s
  {
    SplitFromFacts(s, 0, 0);
    assert s[0..] == s;
  }

  /* ---------------------------------------------------------------- */
  /* Classifying the pieces                                           */
  /* ---------------------------------------------------------------- */

  datatype Node = DisplayMath(tex: string) | InlineMath(tex: string) | TextNode(text: string)

  /** `s.slice(n, -n)`: empty when the bounds cross. */
  function SliceInner(s: string, n: nat): (r: string)
    ensures |s| >= 2 * n ==> r == s[n..|s| - n]
    ensures |s| < 2 * n ==> r == ""
  {
    if |s| >= 2 * n then s[n..|s| - n] else ""
  }

  /** KaTeX rendering, which may throw; `displayMode` is the flag. */
  type KatexThrows = (string, bool) -> bool

  /** A piece is display math when it starts and ends with `$$`, inline
      math when it starts and ends with `$`, text otherwise; math that KaTeX
      rejects is shown as the piece itself. */
  function NodeFor(part: string, throws: KatexThrows): (r: Node)
    ensures r.TextNode? ==> r.text == part
    ensures r.DisplayMath? ==> StartsWith(part, "$$") && EndsWith(part, "$$")
    ensures r.InlineMath? ==> StartsWith(part, "$") && EndsWith(part, "$")
    ensures r.DisplayMath? <==>
      StartsWith(part, "$$") && EndsWith(part, "$$") && !throws(SliceInner(part, 2), true)
    ensures r.DisplayMath? ==> r.tex == SliceInner(part, 2)
    ensures r.InlineMath? <==>
      !(StartsWith(part, "$$") && EndsWith(part, "$$"))
      && StartsWith(part, "$") && EndsWith(part, "$") && !throws(SliceInner(part, 1), false)
    ensures r.InlineMath? ==> r.tex == SliceInner(part, 1)
  {
    if StartsWith(part, "$$") && EndsWith(part, "$$") then
      var math := SliceInner(part, 2);
      if throws(math, true) then TextNode(part) else DisplayMath(math)
    else if StartsWith(part, "$") && EndsWith(part, "$") then
      var math := SliceInner(part, 1);
      if throws(math, false) then TextNode(part) else InlineMath(math)
    else TextNode(part)
  }

  function Nodes(parts: seq<string>, throws: KatexThrows): (r: seq<Node>)
    ensures |r| == |parts|
    ensures forall i :: 0 <= i < |parts| ==> r[i] == NodeFor(parts[i], throws)
  {
    seq(|parts|, i requires 0 <= i < |parts| => NodeFor(parts[i], throws))
  }

  /** The container the component renders into. */
  class MathContainer {
    var children: seq<Node>

    constructor ()
      ensures children == []
    {
      children := [];
    }

    /** Clears the container, then appends one node per piece of the
        split, in order. */
    method RenderMath(content: string, throws: KatexThrows)
      modifies this
      ensures children == Nodes(SplitMath(content), throws)
    {
      var parts := SplitMath(content);
      children := [];
      var i := 0;
      while i < |parts|
        invariant 0 <= i <= |parts|
        invariant children == Nodes(parts[..i], throws)
      {
        children := children + [NodeFor(parts[i], throws)];
        i := i + 1;
      }
      assert parts[..i] == parts;
    }
  }

  /* ---------------------------------------------------------------- */
  /* A lone trailing `$` disappears                                   */
  /* ---------------------------------------------------------------- */

  function NeverThrows(): KatexThrows
  {
    (tex: string, display: bool) => false
  }

  /** As written, the text "$" (say, an option naming the currency) is one
      text piece that starts and ends with `$`: it becomes empty inline
      math and nothing is shown. */
  lemma LoneDollarVanishes()
    ensures SplitMath("$") == ["$"]
    ensures Nodes(SplitMath("$"), NeverThrows()) == [InlineMath("")]
  {
    assert MatchAt("$", 0).None?;
    assert SplitFrom("$", 0, 0) == SplitFrom("$", 0, 1);
  }

  /** The intended classification goes by position in the split: only the
      delimited pieces are math. */
  function IntendedNodeFor(part: string, isPiece: bool, throws: KatexThrows): (r: Node)
    ensures !isPiece ==> r == TextNode(part)
    ensures r.TextNode? ==> r.text == part
    ensures r.DisplayMath? <==>
      isPiece && |part| >= 4 && StartsWith(part, "$$") && EndsWith(part, "$$") && !throws(SliceInner(part, 2), true)
    ensures r.DisplayMath? ==> r.tex == SliceInner(part, 2)
    ensures r.InlineMath? <==>
      isPiece && !(|part| >= 4 && StartsWith(part, "$$") && EndsWith(part, "$$")) && !throws(SliceInner(part, 1), false)
    ensures r.InlineMath? ==> r.tex == SliceInner(part, 1)
  {
    if !isPiece then TextNode(part)
    else if |part| >= 4 && StartsWith(part, "$$") && EndsWith(part, "$$") then
      var math := SliceInner(part, 2);
      if throws(math, true) then TextNode(part) else DisplayMath(math)
    else
      var math := SliceInner(part, 1);
      if throws(math, false) then TextNode(part) else InlineMath(math)
  }

  function IntendedNodes(parts: seq<string>, throws: KatexThrows): (r: seq<Node>)
    ensures |r| == |parts|
    ensures forall i :: 0 <= i < |parts| ==> r[i] == IntendedNodeFor(parts[i], i % 2 == 1, throws)
  {
    seq(|parts|, i requires 0 <= i < |parts| => IntendedNodeFor(parts[i], i % 2 == 1, throws))
  }

  /** What a node displays, written back with its delimiters. */
  function SourceOf(n: Node): string
  {
    match n
    case DisplayMath(t) => "$$" + t + "$$"
    case InlineMath(t) => "$" + t + "$"
    case TextNode(x) => x
  }

  function Sources(nodes: seq<Node>): (r: seq<string>)
    ensures |r| == |nodes|
    ensures forall i :: 0 <= i < |nodes| ==> r[i] == SourceOf(nodes[i])
  {
    seq(|nodes|, i requires 0 <= i < |nodes| => SourceOf(nodes[i]))
  }

  lemma IntendedNodeSource(part: string, isPiece: bool, throws: KatexThrows)
    requires isPiece ==> IsCapture(part)
    ensures SourceOf(IntendedNodeFor(part, isPiece, throws)) == part
  {
    if isPiece && !(|part| >= 4 && StartsWith(part, "$$") && EndsWith(part, "$$")) {
      assert part == "$" + part[1..|part| - 1] + "$";
    } else if isPiece {
      assert part == "$$" + part[2..|part| - 2] + "$$";
    }
  }

  /** With the intended classification every character of the content is
      shown: the nodes, written back, give the content again. */
  lemma IntendedRenderingLosesNothing(s: string, throws: KatexThrows)
    ensures Flatten(Sources(IntendedNodes(SplitMath(s), throws))) == s
    ensures SplitMath("$") == ["$"] && IntendedNodes(SplitMath("$"), throws) == [TextNode("$")]
  {
    var parts := SplitMath(s);
    SplitMathFacts(s);
    var src := Sources(IntendedNodes(parts, throws));
    forall i | 0 <= i < |parts| ensures src[i] == parts[i] {
      IntendedNodeSource(parts[i], i % 2 == 1, throws);
    }
    assert src == parts;
    LoneDollarVanishes();
  }

  /** The page's classification and the intended one agree on every piece
      except a final text piece that is exactly "$" and an empty `$$`
      piece (shown as empty display rather than inline math). */
  lemma AsWrittenAgreesElsewhere(s: string, throws: KatexThrows, i: nat)
    requires i < |SplitMath(s)|
    requires i % 2 == 0 ==> SplitMath(s)[i] != "$"
    requires i % 2 == 1 ==> SplitMath(s)[i] != "$$"
    ensures NodeFor(SplitMath(s)[i], throws) == IntendedNodeFor(SplitMath(s)[i], i % 2 == 1, throws)
  {
    var parts := SplitMath(s);
    SplitMathFacts(s);
    var x := parts[i];
    if i % 2 == 0 {
      TextIsNotMath(x);
    } else {
      CaptureIsNotShortDisplay(x);
    }
  }

  /** A text piece other than a lone `$` is never taken for math. */
  lemma TextIsNotMath(x: string)
    requires '$' !in x || AtMostOneDollar(x)
    requires x != "$"
    ensures !(StartsWith(x, "$") && EndsWith(x, "$"))
    ensures !(StartsWith(x, "$$") && EndsWith(x, "$$"))
  {
    if |x| == 1 {
      assert x == x[..1];
    } else if |x| >= 2 {
      assert x[0] == '$' ==> x[|x| - 1] != '$';
      assert StartsWith(x, "$") || StartsWith(x, "$$") ==> x[0] == '$';
      assert EndsWith(x, "$") || EndsWith(x, "$$") ==> x[|x| - 1] == '$';
    }
  }

  /** A delimited piece other than `$$` that starts and ends with `$$` has
      at least four characters. */
  lemma CaptureIsNotShortDisplay(x: string)
    requires IsCapture(x) && x != "$$"
    ensures !(StartsWith(x, "$$") && EndsWith(x, "$$") && |x| < 4)
  {
    if |x| == 2 {
      assert x == x[..2];
    } else if |x| == 3 {
      assert x[..2][1] == x[1];
    }
  }
}
