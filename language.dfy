/** The language context shared by every page: the selected interface
    language, its persistence under the `qp_language` storage key, and the
    translation function `t` that looks up a dotted key in the nested
    translation dictionaries, falling back to English and then to the key
    itself. */
module Language {
  import opened Common

  datatype Lang = En | Hi | Mr

  /** The code stored and compared: "en", "hi" or "mr". */
  function Code(l: Lang): string
  {
    match l
    case En => "en"
    case Hi => "hi"
    case Mr => "mr"
  }

  /** A stored value is adopted only when it is one of the three codes. */
  function ParseCode(s: string): (r: Option<Lang>)
    ensures r.Some? <==> s == "en" || s == "hi" || s == "mr"
    ensures r.Some? ==> Code(r.value) == s
  {
    if s == "en" then Some(En)
    else if s == "hi" then Some(Hi)
    else if s == "mr" then Some(Mr)
    else None
  }

  /** Every language survives being stored and read back. */
  lemma ParseCodeRoundTrip(l: Lang)
    ensures ParseCode(Code(l)) == Some(l)
  {
  }

  /* ---------------------------------------------------------------- */
  /* Translation dictionaries                                          */
  /* ---------------------------------------------------------------- */

  /** A dictionary value: a string, or an object of named entries (keys in
      object order, distinct). */
  datatype Entry = Text(text: string) | Group(children: seq<(string, Entry)>)

  datatype Dictionaries = Dictionaries(en: Entry, hi: Entry, mr: Entry)

  function RootOf(d: Dictionaries, l: Lang): Entry
  {
    match l
    case En => d.en
    case Hi => d.hi
    case Mr => d.mr
  }

  /** `current[k]`, where `None` stands for `undefined`. */
  function Child(e: Entry, k: string): (r: Option<Entry>)
    ensures r.Some? <==> e.Group? && exists i :: 0 <= i < |e.children| && e.children[i].0 == k
    ensures r.Some? ==> exists i :: 0 <= i < |e.children| && e.children[i] == (k, r.value)
  {
    match e
    case Text(_) => None
    case Group(cs) =>
      match FindFirst(cs, (c: (string, Entry)) => c.0 == k)
      case None => None
      case Some(i) => Some(cs[i].1)
  }

  /** The value reached by following `keys` from `e`, if every step exists. */
  function Walk(e: Entry, keys: seq<string>): Option<Entry>
  {
    if keys == [] then Some(e)
    else match Walk(e, keys[..|keys| - 1])
      case None => None
      case Some(c) => Child(c, keys[|keys| - 1])
  }

  /** A missing step stays missing however far the path goes on. */
  lemma {:induction false} WalkMissingPrefix(e: Entry, keys: seq<string>, i: nat)
    requires i <= |keys| && Walk(e, keys[..i]).None?
    ensures Walk(e, keys).None?
    decreases |keys|
  {
    if i < |keys| {
      var init := keys[..|keys| - 1];
      assert init[..i] == keys[..i];
      WalkMissingPrefix(e, init, i);
    } else {
      assert keys[..i] == keys;
    }
  }

  /** Following a path in two legs is following it in one. */
  lemma {:induction false} WalkAppend(e: Entry, a: seq<string>, b: seq<string>)
    ensures Walk(e, a + b) == match Walk(e, a) case None => None case Some(c) => Walk(c, b)
    decreases |b|
  {
    if b == [] {
      assert a + b == a;
    } else {
      var b0 := b[..|b| - 1];
      assert (a + b)[..|a + b| - 1] == a + b0;
      WalkAppend(e, a, b0);
    }
  }

  /** The path a dotted key names: `key.split(".")`. */
  function Path(key: string): seq<string>
  {
    SplitOn(key, '.')
  }

  /** A key without a dot names one entry of the top-level object. */
  lemma PathOfPlainKey(e: Entry, key: string)
    requires '.' !in key
    ensures Walk(e, Path(key)) == Child(e, key)
  {
    assert Path(key) == [key];
    assert [key][..0] == [];
  }

  /* ---------------------------------------------------------------- */
  /* The provider                                                      */
  /* ---------------------------------------------------------------- */

  class LanguageProvider {
    const dictionaries: Dictionaries
    var language: Lang
    /** The value under the `qp_language` storage key. */
    var stored: Option<string>

    /** Mounting starts in English whatever the storage holds. */
    constructor (d: Dictionaries, storage: Option<string>)
      ensures dictionaries == d && language == En && stored == storage
    {
      dictionaries := d;
      language := En;
      stored := storage;
    }

    /** The mount effect: a stored code is adopted only when it names one
        of the three languages; anything else leaves the language alone. */
    method LoadPersisted()
      modifies this
      ensures stored == old(stored)
      ensures stored.Some? && ParseCode(stored.value).Some? ==> language == ParseCode(stored.value).value
      ensures stored.None? || ParseCode(stored.value).None? ==> language == old(language)
      ensures Code(language) == old(Code(language)) || stored == Some(Code(language))
    {
      if stored.Some? && stored.value != "" {
        var l := ParseCode(stored.value);
        if l.Some? {
          language := l.value;
        }
      }
    }

    /** Selects a language and persists the same value. */
    method SetLanguage(l: Lang)
      modifies this
      ensures language == l && stored == Some(Code(l))
    {
      language := l;
      stored := Some(Code(l));
    }

    /** `t(key)`: the entry the dotted key reaches in the current language;
        if any step is missing there, the entry it reaches in English; if
        that is missing too, the key itself as text. */
    method T(key: string) returns (r: Entry)
      ensures Walk(RootOf(dictionaries, language), Path(key)).Some? ==>
              r == Walk(RootOf(dictionaries, language), Path(key)).value
      ensures Walk(RootOf(dictionaries, language), Path(key)).None? && Walk(dictionaries.en, Path(key)).Some? ==>
              r == Walk(dictionaries.en, Path(key)).value
      ensures Walk(RootOf(dictionaries, language), Path(key)).None? && Walk(dictionaries.en, Path(key)).None? ==>
              r == Text(key)
    {
      var keys := Path(key);
      var current := RootOf(dictionaries, language);
      var i := 0;
      while i < |keys|
        invariant 0 <= i <= |keys|
        invariant Walk(RootOf(dictionaries, language), keys[..i]) == Some(current)
      {
        assert keys[..i + 1][..i] == keys[..i];
        var next := Child(current, keys[i]);
        if next.None? {
          WalkMissingPrefix(RootOf(dictionaries, language), keys, i + 1);
          r := EnglishFallback(key, keys);
          return;
        }
        current := next.value;
        i := i + 1;
      }
      assert keys[..i] == keys;
      r := current;
    }

    /** The inner loop of `t`: the English entry, or the key itself. */
    method EnglishFallback(key: string, keys: seq<string>) returns (r: Entry)
      ensures Walk(dictionaries.en, keys).Some? ==> r == Walk(dictionaries.en, keys).value
      ensures Walk(dictionaries.en, keys).None? ==> r == Text(key)
    {
      var fallback := dictionaries.en;
      var j := 0;
      while j < |keys|
        invariant 0 <= j <= |keys|
        invariant Walk(dictionaries.en, keys[..j]) == Some(fallback)
      {
        assert keys[..j + 1][..j] == keys[..j];
        var next := Child(fallback, keys[j]);
        if next.None? {
          WalkMissingPrefix(dictionaries.en, keys, j + 1);
          return Text(key);
        }
        fallback := next.value;
        j := j + 1;
      }
      assert keys[..j] == keys;
      r := fallback;
    }
  }

  /** Once a language is set, a provider mounted later over the same
      storage comes back in that language. */
  method SetThenRemount(d: Dictionaries, storage: Option<string>, l: Lang) returns (later: LanguageProvider)
    ensures later.language == l
  {
    var p := new LanguageProvider(d, storage);
    p.SetLanguage(l);
    later := new LanguageProvider(d, p.stored);
    later.LoadPersisted();
  }
}
