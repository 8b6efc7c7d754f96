/** Small value-level helpers that several pages share: optional values,
    decimal rendering of numbers, JavaScript's whitespace and trimming,
    prefix tests, order-preserving filtering, flattening and searching of
    lists, splitting on a separator, ASCII case folding and
    `encodeURIComponent`. */
module Common {

  datatype Option<T> = None | Some(value: T)

  /* ---------------------------------------------------------------- */
  /* Characters                                                        */
  /* ---------------------------------------------------------------- */

  /** `\d` in a JavaScript regular expression: ASCII digits only. */
  predicate IsDigit(c: char) { '0' <= c <= '9' }

  predicate AllDigits(s: string) { forall i :: 0 <= i < |s| ==> IsDigit(s[i]) }

  /** The characters JavaScript's `String.prototype.trim` and `\s` treat as
      white space: the WhiteSpace and LineTerminator productions. */
  predicate IsSpace(c: char) {
    c == ' ' || c == '\t' || c == '\n' || c == '\r' || c == '\U{000B}' || c == '\U{000C}'
    || c == '\U{00A0}' || c == '\U{1680}' || ('\U{2000}' <= c <= '\U{200A}')
    || c == '\U{2028}' || c == '\U{2029}' || c == '\U{202F}' || c == '\U{205F}'
    || c == '\U{3000}' || c == '\U{FEFF}'
  }

  predicate IsAsciiUpper(c: char) { 'A' <= c <= 'Z' }

  function LowerChar(c: char): (r: char)
    ensures !IsAsciiUpper(r)
    ensures IsAsciiUpper(c) ==> r as int == c as int + 32
    ensures !IsAsciiUpper(c) ==> r == c
  {
    if IsAsciiUpper(c) then (c as int + 32) as char else c
  }

  /** ASCII lower-casing. For every target this model compares against
      ("free", "live", "completed", "upcoming") it agrees with JavaScript's
      `toLowerCase`, which only maps non-ASCII characters to ASCII letters
      for the Kelvin sign (to 'k') and dotted capital I (to two characters). */
  function Lower(s: string): (r: string)
    ensures |r| == |s|
    ensures forall i :: 0 <= i < |s| ==> r[i] == LowerChar(s[i])
  {
    if s == [] then [] else [LowerChar(s[0])] + Lower(s[1..])
  }

  /* ---------------------------------------------------------------- */
  /* Decimal rendering of integers: `${n}` in a template string         */
  /* ---------------------------------------------------------------- */

  function DigitChar(d: nat): (c: char)
    requires d < 10
    ensures IsDigit(c) && c as int - '0' as int == d
  {
    ('0' as int + d) as char
  }

  /** The shortest decimal numeral of `n` (no leading zeros). */
  function NatToString(n: nat): (s: string)
    ensures |s| >= 1 && AllDigits(s)
    ensures n >= 10 ==> s[0] != '0'
    decreases n
  {
    if n < 10 then [DigitChar(n)] else NatToString(n / 10) + [DigitChar(n % 10)]
  }

  /** The value of a numeral, read back. */
  function DigitsValue(s: string): nat
    requires AllDigits(s)
  {
    if s == [] then 0 else DigitsValue(s[..|s| - 1]) * 10 + (s[|s| - 1] as int - '0' as int)
  }

  /** Reading a rendered natural number back gives the number. */
  lemma {:induction false} NatToStringRoundTrip(n: nat)
    ensures DigitsValue(NatToString(n)) == n
    decreases n
  {
    if n >= 10 {
      NatToStringRoundTrip(n / 10);
      var s := NatToString(n);
      assert s[..|s| - 1] == NatToString(n / 10);
    }
  }

  function IntToString(i: int): (s: string)
    ensures |s| >= 1
    ensures i >= 0 <==> s[0] != '-'
    ensures !IsSpace(s[0]) && IsDigit(s[|s| - 1])
  {
    if i < 0 then "-" + NatToString(-i) else NatToString(i)
  }

  /** Math.round on an exact value: halves round up (towards +infinity). */
  function RoundHalfUp(x: real): (r: int)
    ensures r as real - 0.5 <= x < r as real + 0.5
  {
    (x + 0.5).Floor
  }

  /* ---------------------------------------------------------------- */
  /* Prefixes, suffixes and trimming                                    */
  /* ---------------------------------------------------------------- */

  predicate StartsWith(s: string, p: string) { |p| <= |s| && s[..|p|] == p }

  predicate EndsWith(s: string, p: string) { |p| <= |s| && s[|s| - |p|..] == p }

  function TrimStart(s: string): (r: string)
    ensures |r| <= |s| && r == s[|s| - |r|..]
    ensures r == [] || !IsSpace(r[0])
    ensures forall i :: 0 <= i < |s| - |r| ==> IsSpace(s[i])
  {
    if s != [] && IsSpace(s[0]) then
      var r := TrimStart(s[1..]);
      assert s[1..][|s| - 1 - |r|..] == s[|s| - |r|..];
      assert forall i :: 1 <= i < |s| - |r| ==> s[i] == s[1..][i - 1];
      r
    else s
  }

  function TrimEnd(s: string): (r: string)
    ensures |r| <= |s| && r == s[..|r|]
    ensures r == [] || !IsSpace(r[|r| - 1])
    ensures forall i :: |r| <= i < |s| ==> IsSpace(s[i])
  {
    if s != [] && IsSpace(s[|s| - 1]) then
      var r := TrimEnd(s[..|s| - 1]);
      assert s[..|s| - 1][..|r|] == s[..|r|];
      assert forall i :: |r| <= i < |s| - 1 ==> s[i] == s[..|s| - 1][i];
      r
    else s
  }

  /** `String.prototype.trim`: the longest infix with no white space at
      either end, obtained by dropping white space only. */
  function Trim(s: string): (r: string)
    ensures |r| <= |s|
    ensures r == [] || (!IsSpace(r[0]) && !IsSpace(r[|r| - 1]))
  {
    var a := TrimStart(s);
    var r := TrimEnd(a);
    assert r == [] || r[0] == a[0];
    r
  }

  /** What `trim` keeps is the infix left after dropping the leading and
      the trailing white space. */
  lemma TrimIsInfix(s: string)
    ensures var k := |s| - |TrimStart(s)|;
            && k + |Trim(s)| <= |s| && Trim(s) == s[k..k + |Trim(s)|]
            && (forall i :: 0 <= i < k ==> IsSpace(s[i]))
            && (forall i :: k + |Trim(s)| <= i < |s| ==> IsSpace(s[i]))
  {
    TrimEndTail(s, |s| - |TrimStart(s)|);
  }

  /** Trimming the end of a suffix of `s` leaves an infix of `s` followed
      only by white space. */
  lemma TrimEndTail(s: string, k: nat)
    requires k <= |s|
    ensures var r := TrimEnd(s[k..]);
            && k + |r| <= |s| && r == s[k..k + |r|]
            && (forall i :: k + |r| <= i < |s| ==> IsSpace(s[i]))
  {
    var a := s[k..];
    var r := TrimEnd(a);
    assert r == a[..|r|];
    forall i | k + |r| <= i < |s| ensures IsSpace(s[i]) {
      assert s[i] == a[i - k];
    }
  }

  /* ---------------------------------------------------------------- */
  /* Lists                                                             */
  /* ---------------------------------------------------------------- */

  /** `Array.prototype.filter`: the order-preserving sublist of the
      elements that pass. */
  function Filter<T>(s: seq<T>, p: T -> bool): (r: seq<T>)
    ensures |r| <= |s|
    ensures forall i :: 0 <= i < |r| ==> p(r[i])
  {
    if s == [] then [] else (if p(s[0]) then [s[0]] else []) + Filter(s[1..], p)
  }

  /** Filtering keeps exactly the elements that pass. */
  lemma {:induction false} FilterMembers<T>(s: seq<T>, p: T -> bool)
    ensures forall i :: 0 <= i < |Filter(s, p)| ==> Filter(s, p)[i] in s
    ensures forall i :: 0 <= i < |s| && p(s[i]) ==> s[i] in Filter(s, p)
    decreases |s|
  {
    if s != [] {
      FilterMembers(s[1..], p);
      var r, h := Filter(s, p), (if p(s[0]) then [s[0]] else []);
      assert r == h + Filter(s[1..], p);
      forall i | 0 <= i < |r| ensures r[i] in s {
        if i >= |h| {
          assert r[i] == Filter(s[1..], p)[i - |h|];
          assert r[i] in s[1..];
        }
      }
      forall i | 0 < i < |s| && p(s[i]) ensures s[i] in r {
        assert s[i] == s[1..][i - 1];
        assert s[i] in Filter(s[1..], p);
      }
    }
  }

  lemma {:induction false} FilterAppend<T>(s: seq<T>, t: seq<T>, p: T -> bool)
    ensures Filter(s + t, p) == Filter(s, p) + Filter(t, p)
  {
    if s != [] {
      assert (s + t)[0] == s[0];
      assert (s + t)[1..] == s[1..] + t;
      FilterAppend(s[1..], t, p);
    } else {
      assert s + t == t;
    }
  }

  lemma FilterCons<T>(a: T, rest: seq<T>, p: T -> bool)
    ensures Filter([a] + rest, p) == (if p(a) then [a] else []) + Filter(rest, p)
  {
    var s := [a] + rest;
    assert s[0] == a && s[1..] == rest;
  }

  /** Putting the same element in front of two lists whose filtered forms
      differ by a suffix keeps that difference. */
  lemma FilterConsSuffix<T>(a: T, rest: seq<T>, tail: seq<T>, c: seq<T>, p: T -> bool)
    requires Filter(rest, p) == Filter(tail, p) + c
    ensures Filter([a] + rest, p) == Filter([a] + tail, p) + c
  {
    var h := if p(a) then [a] else [];
    var fr, ft := Filter(rest, p), Filter(tail, p);
    FilterCons(a, rest, p);
    FilterCons(a, tail, p);
    assert Filter([a] + rest, p) == h + fr;
    assert Filter([a] + tail, p) == h + ft;
    AppendAssoc(h, ft, c);
  }

  lemma AppendAssoc<T>(x: seq<T>, y: seq<T>, z: seq<T>)
    ensures x + (y + z) == (x + y) + z
  {
  }

  lemma FilterNone<T>(s: seq<T>, p: T -> bool)
    requires forall i :: 0 <= i < |s| ==> !p(s[i])
    ensures Filter(s, p) == []
  {
  }

  /** Nothing is dropped only when every element passes. */
  lemma {:induction false} FilterLengthAll<T>(s: seq<T>, p: T -> bool)
    requires |Filter(s, p)| == |s|
    ensures forall i :: 0 <= i < |s| ==> p(s[i])
    ensures Filter(s, p) == s
  {
    if s != [] {
      assert |Filter(s[1..], p)| <= |s| - 1;
      FilterLengthAll(s[1..], p);
      assert forall i :: 1 <= i < |s| ==> s[i] == s[1..][i - 1];
    }
  }

  /** Filtering keeps everything exactly when everything passes. */
  lemma {:induction false} FilterKeepsAll<T>(s: seq<T>, p: T -> bool)
    ensures Filter(s, p) == s <==> forall i :: 0 <= i < |s| ==> p(s[i])
  {
    if s != [] {
      FilterKeepsAll(s[1..], p);
      if !p(s[0]) {
        assert |Filter(s, p)| < |s| by { assert |Filter(s[1..], p)| <= |s| - 1; }
      } else {
        assert Filter(s, p) == s ==> Filter(s[1..], p) == s[1..] by {
          assert Filter(s, p) == [s[0]] + Filter(s[1..], p);
        }
        assert forall i :: 1 <= i < |s| ==> s[i] == s[1..][i - 1];
      }
    }
  }

  /** `flatMap(x => x)` over a list of pages: the in-order concatenation. */
  function Flatten<T>(pages: seq<seq<T>>): (r: seq<T>)
  {
    if pages == [] then [] else Flatten(pages[..|pages| - 1]) + pages[|pages| - 1]
  }

  lemma {:induction false} FlattenAppend<T>(a: seq<seq<T>>, b: seq<seq<T>>)
    ensures Flatten(a + b) == Flatten(a) + Flatten(b)
    decreases |b|
  {
    if b != [] {
      assert (a + b)[..|a + b| - 1] == a + b[..|b| - 1];
      FlattenAppend(a, b[..|b| - 1]);
    } else {
      assert a + b == a;
    }
  }

  function SumLengths<T>(pages: seq<seq<T>>): nat
  {
    if pages == [] then 0 else SumLengths(pages[..|pages| - 1]) + |pages[|pages| - 1]|
  }

  /** Every element of every page is present, once, at its running offset. */
  lemma {:induction false} FlattenIndex<T>(pages: seq<seq<T>>, j: nat, i: nat)
    requires j < |pages| && i < |pages[j]|
    ensures |Flatten(pages)| == SumLengths(pages)
    ensures SumLengths(pages[..j]) + i < |Flatten(pages)|
    ensures Flatten(pages)[SumLengths(pages[..j]) + i] == pages[j][i]
    decreases |pages|
  {
    var n := |pages| - 1;
    FlattenLength(pages);
    FlattenLength(pages[..n]);
    if j < n {
      assert pages[..n][..j] == pages[..j];
      FlattenIndex(pages[..n], j, i);
    } else {
      assert pages[..n] == pages[..j];
    }
  }

  lemma {:induction false} FlattenLength<T>(pages: seq<seq<T>>)
    ensures |Flatten(pages)| == SumLengths(pages)
  {
    if pages != [] { FlattenLength(pages[..|pages| - 1]); }
  }

  /** `Array.prototype.find`, by position: the first index that passes. */
  function FindFirst<T>(s: seq<T>, p: T -> bool): (r: Option<nat>)
    ensures r.Some? ==> r.value < |s| && p(s[r.value])
                        && forall j :: 0 <= j < r.value ==> !p(s[j])
    ensures r.None? ==> forall j :: 0 <= j < |s| ==> !p(s[j])
  {
    if s == [] then None
    else if p(s[0]) then Some(0)
    else match FindFirst(s[1..], p)
      case None => None
      case Some(k) => Some(k + 1)
  }

  function Take<T>(s: seq<T>, n: nat): (r: seq<T>)
    ensures |r| == if |s| < n then |s| else n
    ensures r == s[..|r|]
  {
    if |s| <= n then s else s[..n]
  }

  /* ---------------------------------------------------------------- */
  /* Splitting on a separator: `s.split(c)` for a one-character string  */
  /* ---------------------------------------------------------------- */

  function SplitOn(s: string, sep: char): (parts: seq<string>)
    ensures |parts| >= 1
    ensures forall i :: 0 <= i < |parts| ==> sep !in parts[i]
    decreases |s|
  {
    if sep !in s then [s]
    else
      var k := IndexOf(s, sep);
      [s[..k]] + SplitOn(s[k + 1..], sep)
  }

  function IndexOf(s: string, c: char): (k: nat)
    requires c in s
    ensures k < |s| && s[k] == c && c !in s[..k]
  {
    if s[0] == c then 0 else IndexOf(s[1..], c) + 1
  }

  function JoinWith(parts: seq<string>, sep: char): string
    requires |parts| >= 1
  {
    if |parts| == 1 then parts[0] else parts[0] + [sep] + JoinWith(parts[1..], sep)
  }

  /** Splitting loses nothing: joining the parts with the separator gives
      back the input. */
  lemma {:induction false} SplitJoin(s: string, sep: char)
    ensures JoinWith(SplitOn(s, sep), sep) == s
    decreases |s|
  {
    if sep in s {
      var k := IndexOf(s, sep);
      var rest := SplitOn(s[k + 1..], sep);
      var parts := SplitOn(s, sep);
      assert parts == [s[..k]] + rest;
      assert |parts| >= 2 && parts[0] == s[..k] && parts[1..] == rest;
      SplitJoin(s[k + 1..], sep);
      calc {
        JoinWith(parts, sep);
        parts[0] + [sep] + JoinWith(parts[1..], sep);
        s[..k] + [sep] + s[k + 1..];
        { assert s == s[..k] + [s[k]] + s[k + 1..]; }
        s;
      }
    }
  }

  /* ---------------------------------------------------------------- */
  /* encodeURIComponent                                                */
  /* ---------------------------------------------------------------- */

  /** The characters `encodeURIComponent` leaves as they are. */
  predicate IsUnreserved(c: char) {
    ('a' <= c <= 'z') || ('A' <= c <= 'Z') || IsDigit(c)
    || c == '-' || c == '_' || c == '.' || c == '!' || c == '~' || c == '*'
    || c == '\'' || c == '(' || c == ')'
  }

  predicate IsUpperHex(c: char) { IsDigit(c) || ('A' <= c <= 'F') }

  function HexDigit(d: nat): (c: char)
    requires d < 16
    ensures IsUpperHex(c)
  {
    if d < 10 then DigitChar(d) else ('A' as int + d - 10) as char
  }

  /** The UTF-8 encoding of one Unicode scalar value. */
  function Utf8(c: char): (bytes: seq<nat>)
    ensures 1 <= |bytes| <= 4
    ensures forall i :: 0 <= i < |bytes| ==> bytes[i] < 256
  {
    var v := c as int;
    if v < 0x80 then [v]
    else if v < 0x800 then [0xC0 + v / 0x40, 0x80 + v % 0x40]
    else if v < 0x10000 then [0xE0 + v / 0x1000, 0x80 + (v / 0x40) % 0x40, 0x80 + v % 0x40]
    else [0xF0 + v / 0x40000, 0x80 + (v / 0x1000) % 0x40, 0x80 + (v / 0x40) % 0x40, 0x80 + v % 0x40]
  }

  function PercentBytes(bytes: seq<nat>): (r: string)
    requires forall i :: 0 <= i < |bytes| ==> bytes[i] < 256
    ensures |r| == 3 * |bytes|
    ensures forall i :: 0 <= i < |r| ==> r[i] == '%' || IsUpperHex(r[i])
  {
    if bytes == [] then []
    else ['%', HexDigit(bytes[0] / 16), HexDigit(bytes[0] % 16)] + PercentBytes(bytes[1..])
  }

  function EncodeChar(c: char): string
  {
    if IsUnreserved(c) then [c] else PercentBytes(Utf8(c))
  }

  predicate IsUrlSafe(c: char) { IsUnreserved(c) || c == '%' }

  /** `encodeURIComponent`. What comes out is made of unreserved characters
      and percent escapes only, so it can never contain '&', '=', '?', '#'
      or '/'; and a string of unreserved characters comes out unchanged. */
  function EncodeURIComponent(s: string): (r: string)
    ensures forall i :: 0 <= i < |r| ==> IsUrlSafe(r[i])
    ensures (forall i :: 0 <= i < |s| ==> IsUnreserved(s[i])) ==> r == s
  {
    if s == [] then [] else EncodeChar(s[0]) + EncodeURIComponent(s[1..])
  }
}
