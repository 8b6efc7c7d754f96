/** The application shell around every page: which paths show the header
    and navigation, which paths send a visitor without a token to the login
    page, and which navigation item is highlighted. */
module AppShell {
  import opened Common

  const PrimaryNav: seq<string> := ["/home", "/paper", "/test", "/competitions"]
  const SecondaryNav: seq<string> := ["/results", "/my-academy", "/subscription", "/profile"]
  const HideShellPrefixes: seq<string> := ["/login", "/verify-otp", "/question-paper", "/competitions/"]
  const HideShellExact: seq<string> := ["/", "/competitions"]
  const PublicRoutes: seq<string> := ["/", "/login", "/verify-otp"]

  /** The page is drawn without the shell: an exact match, or a listed prefix. */
  predicate HideShell(path: string)
  {
    path in HideShellExact || exists i :: 0 <= i < |HideShellPrefixes| && StartsWith(path, HideShellPrefixes[i])
  }

  /** Every competition page, the list and each competition under it, is
      drawn without the shell, and so are the exam and sign-in pages. */
  lemma ShellHiddenPages(path: string, rest: string)
    ensures HideShell("/competitions") && HideShell("/")
    ensures HideShell("/competitions/" + rest)
    ensures HideShell("/question-paper" + rest) && HideShell("/login" + rest) && HideShell("/verify-otp" + rest)
  {
    assert StartsWith("/competitions/" + rest, HideShellPrefixes[3]);
    assert StartsWith("/question-paper" + rest, HideShellPrefixes[2]);
    assert StartsWith("/login" + rest, HideShellPrefixes[0]);
    assert StartsWith("/verify-otp" + rest, HideShellPrefixes[1]);
  }

  /** Every hidden path but "/" starts with "/l", "/v", "/q" or "/c"; any
      other path is drawn with the shell. */
  lemma ShellShownElsewhere(path: string)
    requires |path| >= 2 && path[1] != 'l' && path[1] != 'v' && path[1] != 'q' && path[1] != 'c'
    ensures !HideShell(path)
  {
    assert HideShellPrefixes == ["/login", "/verify-otp", "/question-paper", "/competitions/"];
    forall i | 0 <= i < |HideShellPrefixes| ensures !StartsWith(path, HideShellPrefixes[i]) {
      var p := HideShellPrefixes[i];
      assert |p| >= 2 && p[1] in "lvqc";
      assert p[1] != path[1];
    }
  }

  /** The redirect for a visitor without a token, if the path needs one. */
  function AuthRedirect(path: string, token: Option<string>): (r: Option<string>)
    ensures path in PublicRoutes ==> r.None?
    ensures r.Some? <==> path !in PublicRoutes && (token.None? || token.value == "")
    ensures r.Some? ==> r.value == "/login?next=" + EncodeURIComponent(path)
  {
    if path in PublicRoutes then None
    else if token.Some? && token.value != "" then None
    else Some("/login?next=" + EncodeURIComponent(path))
  }

  /** The path part of an address: everything before the first '?'. */
  function PathPart(url: string): (r: string)
    ensures StartsWith(url, r)
    ensures '?' !in r
  {
    if '?' in url then url[..IndexOf(url, '?')] else url
  }

  /** The login page a redirect leads to is public, so a redirect never
      leads to a second one, and the path to come back to is carried in
      the `next` parameter. */
  lemma RedirectDoesNotLoop(path: string, token: Option<string>)
    requires AuthRedirect(path, token).Some?
    ensures PathPart(AuthRedirect(path, token).value) == "/login"
    ensures AuthRedirect(PathPart(AuthRedirect(path, token).value), None).None?
  {
    var url := AuthRedirect(path, token).value;
    assert url[6] == '?';
    assert '?' !in url[..6];
    assert url[..6] == "/login";
  }

  predicate NavActive(path: string, href: string)
  {
    StartsWith(path, href)
  }

  /** "More" is highlighted when one of the items behind it is. */
  predicate MoreActive(path: string)
  {
    exists i :: 0 <= i < |SecondaryNav| && NavActive(path, SecondaryNav[i])
  }

  const AllNav: seq<string> := PrimaryNav + SecondaryNav

  /** Two prefixes of the same path are prefixes of one another. */
  lemma PrefixesNest(path: string, a: string, b: string)
    requires StartsWith(path, a) && StartsWith(path, b) && |a| <= |b|
    ensures StartsWith(b, a)
  {
    assert b[..|a|] == path[..|b|][..|a|];
  }

  /** No navigation target is a prefix of another. */
  lemma NavTargetsApart(i: nat, j: nat)
    requires i < |AllNav| && j < |AllNav| && i != j
    ensures !StartsWith(AllNav[j], AllNav[i])
  {
    assert AllNav == ["/home", "/paper", "/test", "/competitions", "/results", "/my-academy", "/subscription", "/profile"];
    var a, b := AllNav[i], AllNav[j];
    assert |a| >= 3 && |b| >= 3 && (a[1] != b[1] || a[2] != b[2]);
  }

  /** At most one navigation item is highlighted on any page. */
  lemma AtMostOneActive(path: string, i: nat, j: nat)
    requires i < |AllNav| && j < |AllNav|
    requires NavActive(path, AllNav[i]) && NavActive(path, AllNav[j])
    ensures i == j
  {
    if i != j {
      if |AllNav[i]| <= |AllNav[j]| {
        PrefixesNest(path, AllNav[i], AllNav[j]);
        NavTargetsApart(i, j);
      } else {
        PrefixesNest(path, AllNav[j], AllNav[i]);
        NavTargetsApart(j, i);
      }
    }
  }

  /** So "More" and a primary item are never highlighted together. */
  lemma MoreExcludesPrimary(path: string, i: nat)
    requires i < |PrimaryNav| && NavActive(path, PrimaryNav[i])
    ensures !MoreActive(path)
  {
    if MoreActive(path) {
      var k :| 0 <= k < |SecondaryNav| && NavActive(path, SecondaryNav[k]);
      assert AllNav[i] == PrimaryNav[i] && AllNav[|PrimaryNav| + k] == SecondaryNav[k];
      AtMostOneActive(path, i, |PrimaryNav| + k);
    }
  }
}
