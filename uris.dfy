/** URI recomposition (section 5.3 of RFC 3986) and the matching parse of
    Appendix B of RFC 3986, which together stand for `urlunsplit`. A
    component that is the empty string counts as undefined, as it does in
    `urlunsplit`. */
module Uris {

  datatype UriParts = UriParts(scheme: string, authority: string, path: string, query: string, fragment: string)

  /** The length of the longest prefix of `s` free of the `stop` characters. */
  function Span(s: string, stop: set<char>): (n: nat)
    ensures n <= |s|
    ensures forall k :: 0 <= k < n ==> s[k] !in stop
    ensures n < |s| ==> s[n] in stop
  {
    if s == [] || s[0] in stop then 0 else 1 + Span(s[1..], stop)
  }

  predicate NoneOf(s: string, stop: set<char>) {
    forall k :: 0 <= k < |s| ==> s[k] !in stop
  }

  lemma {:induction false} SpanAppend(a: string, b: string, stop: set<char>)
    requires NoneOf(a, stop)
    ensures Span(a + b, stop) == |a| + Span(b, stop)
  {
    if a != [] {
      assert (a + b)[1..] == a[1..] + b;
      SpanAppend(a[1..], b, stop);
    } else {
      assert a + b == b;
    }
  }

  lemma {:induction false} SpanPrefix(a: string, b: string, stop: set<char>)
    requires Span(a, stop) < |a|
    ensures Span(a + b, stop) == Span(a, stop)
  {
    if a[0] !in stop {
      assert (a + b)[1..] == a[1..] + b;
      SpanPrefix(a[1..], b, stop);
    }
  }

  const GenDelims: set<char> := {':', '/', '?', '#'}

  function SchemePart(p: UriParts): string { if p.scheme != "" then p.scheme + ":" else "" }
  function AuthorityPart(p: UriParts): string { if p.authority != "" then "//" + p.authority else "" }
  function QueryPart(p: UriParts): string { if p.query != "" then "?" + p.query else "" }
  function FragmentPart(p: UriParts): string { if p.fragment != "" then "#" + p.fragment else "" }

  /** What follows the path: query and fragment. */
  function AfterPath(p: UriParts): string { QueryPart(p) + FragmentPart(p) }

  /** What follows the authority: path, query and fragment. */
  function AfterAuthority(p: UriParts): string { p.path + AfterPath(p) }

  /** What follows the scheme: authority, path, query and fragment. */
  function AfterScheme(p: UriParts): string { AuthorityPart(p) + AfterAuthority(p) }

  /** Section 5.3 of RFC 3986: scheme ":", "//" authority, path, "?" query,
      "#" fragment, each delimiter written only for a defined component. */
  function Recompose(p: UriParts): string {
    SchemePart(p) + AfterScheme(p)
  }

  /** The stages of the Appendix B parse; each returns what it took and the
      rest of the string. */
  function SplitScheme(s: string): (string, string) {
    var i := Span(s, GenDelims);
    if 0 < i < |s| && s[i] == ':' then (s[..i], s[i + 1..]) else ("", s)
  }

  function SplitAuthority(s: string): (string, string) {
    if |s| >= 2 && s[0] == '/' && s[1] == '/' then
      var r := s[2..];
      var j := Span(r, {'/', '?', '#'});
      (r[..j], r[j..])
    else ("", s)
  }

  function SplitPath(s: string): (string, string) {
    var k := Span(s, {'?', '#'});
    (s[..k], s[k..])
  }

  function SplitQuery(s: string): (string, string) {
    if s != [] && s[0] == '?' then
      var r := s[1..];
      var m := Span(r, {'#'});
      (r[..m], r[m..])
    else ("", s)
  }

  function SplitFragment(s: string): string {
    if s != [] && s[0] == '#' then s[1..] else ""
  }

  /** Appendix B of RFC 3986: the five components of a URI reference. */
  function SplitUri(s: string): UriParts {
    var (scheme, r1) := SplitScheme(s);
    var (authority, r2) := SplitAuthority(r1);
    var (path, r3) := SplitPath(r2);
    var (query, r4) := SplitQuery(r3);
    UriParts(scheme, authority, path, query, SplitFragment(r4))
  }

  /** Components that a reader can tell apart once recomposed: no component
      holds a delimiter that ends it, a path after an authority is empty or
      absolute, a path without one does not look like an authority, and a
      path with no scheme before it does not look like a scheme. */
  predicate Recomposable(p: UriParts) {
    && NoneOf(p.scheme, GenDelims)
    && NoneOf(p.authority, {'/', '?', '#'})
    && NoneOf(p.path, {'?', '#'})
    && NoneOf(p.query, {'#'})
    && (p.authority != "" ==> p.path == "" || p.path[0] == '/')
    && (p.authority == "" ==> !(|p.path| >= 2 && p.path[0] == '/' && p.path[1] == '/'))
    && (p.scheme == "" && p.authority == "" ==>
          var i := Span(p.path, GenDelims); i == 0 || i == |p.path| || p.path[i] != ':')
  }

  lemma FragmentStage(p: UriParts)
    ensures SplitFragment(FragmentPart(p)) == p.fragment
  {
  }

  lemma QueryStage(p: UriParts)
    requires NoneOf(p.query, {'#'})
    ensures SplitQuery(AfterPath(p)) == (p.query, FragmentPart(p))
  {
    var f := FragmentPart(p);
    if p.query != "" {
      var s := "?" + p.query + f;
      assert s[1..] == p.query + f;
      SpanAppend(p.query, f, {'#'});
      assert Span(f, {'#'}) == 0;
      assert (p.query + f)[..|p.query|] == p.query;
      assert (p.query + f)[|p.query|..] == f;
    } else {
      assert QueryPart(p) + f == f;
    }
  }

  /** What follows the path starts with `?` or `#`, if anything. */
  lemma AfterPathStart(p: UriParts)
    ensures AfterPath(p) == [] || AfterPath(p)[0] == '?' || AfterPath(p)[0] == '#'
  {
  }

  lemma PathStage(p: UriParts)
    requires NoneOf(p.path, {'?', '#'})
    ensures SplitPath(AfterAuthority(p)) == (p.path, AfterPath(p))
  {
    var t := AfterPath(p);
    AfterPathStart(p);
    SpanAppend(p.path, t, {'?', '#'});
    assert Span(t, {'?', '#'}) == 0;
    assert (p.path + t)[..|p.path|] == p.path;
    assert (p.path + t)[|p.path|..] == t;
  }

  lemma AuthorityDefined(a: string, t: string)
    requires a != "" && NoneOf(a, {'/', '?', '#'})
    requires t == [] || t[0] in {'/', '?', '#'}
    ensures SplitAuthority("//" + a + t) == (a, t)
  {
    var s := "//" + a + t;
    assert s[2..] == a + t;
    SpanAppend(a, t, {'/', '?', '#'});
    assert (a + t)[..|a|] == a;
    assert (a + t)[|a|..] == t;
  }

  /** A recomposable path is followed by what it should be: after an
      authority it cannot be mistaken for more authority, and without one
      it does not start with `//`. */
  lemma AfterAuthorityStart(p: UriParts)
    requires Recomposable(p)
    ensures var t := AfterAuthority(p);
      && (p.authority != "" ==> t == [] || t[0] in {'/', '?', '#'})
      && (p.authority == "" ==> !(|t| >= 2 && t[0] == '/' && t[1] == '/'))
  {
    var q := AfterPath(p);
    var t := AfterAuthority(p);
    AfterPathStart(p);
    if p.path == [] {
      assert t == q;
    } else {
      assert t[0] == p.path[0];
      if |p.path| >= 2 {
        assert t[1] == p.path[1];
      } else if |t| >= 2 {
        assert t[1] == q[0];
      }
    }
  }

  lemma AuthorityStage(p: UriParts)
    requires Recomposable(p)
    ensures SplitAuthority(AfterScheme(p)) == (p.authority, AfterAuthority(p))
  {
    var t := AfterAuthority(p);
    AfterAuthorityStart(p);
    if p.authority != "" {
      AuthorityDefined(p.authority, t);
    } else {
      assert AfterScheme(p) == t;
    }
  }

  lemma SchemeDefined(scheme: string, t: string)
    requires scheme != "" && NoneOf(scheme, GenDelims)
    ensures SplitScheme(scheme + ":" + t) == (scheme, t)
  {
    var s := scheme + ":" + t;
    assert s == scheme + ([':'] + t);
    SpanAppend(scheme, [':'] + t, GenDelims);
    assert s[..|scheme|] == scheme;
    assert s[|scheme| + 1..] == t;
  }

  /** With no scheme and no authority, the parse finds no scheme in a
      recomposable path. */
  lemma NoSchemeInPath(p: UriParts)
    requires Recomposable(p) && p.scheme == "" && p.authority == ""
    ensures var t := AfterAuthority(p);
            var i := Span(t, GenDelims);
            !(0 < i < |t| && t[i] == ':')
  {
    var q := AfterPath(p);
    AfterPathStart(p);
    var t := AfterAuthority(p);
    var j := Span(p.path, GenDelims);
    if j < |p.path| {
      SpanPrefix(p.path, q, GenDelims);
      assert t[j] == p.path[j];
    } else {
      SpanAppend(p.path, q, GenDelims);
      if q != [] {
        assert q[0] in GenDelims;
        assert Span(q, GenDelims) == 0;
        assert t[|p.path|] == q[0];
      }
    }
  }

  lemma SchemeStage(p: UriParts)
    requires Recomposable(p)
    ensures SplitScheme(Recompose(p)) == (p.scheme, AfterScheme(p))
  {
    var t := AfterScheme(p);
    if p.scheme != "" {
      SchemeDefined(p.scheme, t);
    } else {
      assert Recompose(p) == t;
      if p.authority != "" {
        assert t[0] == '/';
        assert Span(t, GenDelims) == 0;
      } else {
        assert t == AfterAuthority(p);
        NoSchemeInPath(p);
      }
    }
  }

  /** Parsing a recomposed URI gives back its five components. */
  lemma SplitRecompose(p: UriParts)
    requires Recomposable(p)
    ensures SplitUri(Recompose(p)) == p
  {
    SchemeStage(p);
    AuthorityStage(p);
    PathStage(p);
    QueryStage(p);
    FragmentStage(p);
  }
}
