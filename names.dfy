/** Attribute names of the environment object: the allow-lists and the
    mapping from a raw environment key to an attribute name
    (`make_name`). */
module Names {

  /** The variables that always carry base64-encoded JSON. */
  const JsonVars: seq<string> := [
    "PLATFORM_APPLICATION",
    "PLATFORM_VARIABLES",
    "PLATFORM_RELATIONSHIPS",
    "PLATFORM_ROUTES"
  ]

  /** Names that read as `None` rather than failing when nothing binds them. */
  const KnownAttrs: seq<string> := [
    "application",
    "application_name",
    "app_command",
    "branch",
    "dir",
    "environment",
    "project",
    "project_entropy",
    "relationships",
    "routes",
    "smtp_host",
    "tree_id",
    "variables"
  ]

  /** The substring `make_name` removes. */
  const Prefix: string := "PLATFORM_"

  predicate IsUpper(c: char) { 'A' <= c <= 'Z' }

  /** ASCII lower-casing of one character. */
  function LowerChar(c: char): (r: char)
    ensures !IsUpper(r)
    ensures !IsUpper(c) ==> r == c
  {
    if IsUpper(c) then (c as int + 32) as char else c
  }

  function UpperChar(c: char): (r: char)
    ensures 'a' <= c <= 'z' ==> IsUpper(r) && LowerChar(r) == c
    ensures !('a' <= c <= 'z') ==> r == c
  {
    if 'a' <= c <= 'z' then (c as int - 32) as char else c
  }

  /** `str.lower()` on ASCII. */
  function Lower(s: string): (r: string)
    ensures |r| == |s|
    ensures forall i :: 0 <= i < |s| ==> r[i] == LowerChar(s[i])
  {
    seq(|s|, i requires 0 <= i < |s| => LowerChar(s[i]))
  }

  /** `str.upper()` on ASCII. */
  function Upper(s: string): (r: string)
    ensures |r| == |s|
    ensures forall i :: 0 <= i < |s| ==> r[i] == UpperChar(s[i])
  {
    seq(|s|, i requires 0 <= i < |s| => UpperChar(s[i]))
  }

  predicate NoUpper(s: string) {
    forall i :: 0 <= i < |s| ==> !IsUpper(s[i])
  }

  /** `s.replace(pat, '')`: occurrences found left to right, without
      overlapping, are deleted. */
  function RemoveAll(s: string, pat: string): (r: string)
    requires pat != []
    ensures |r| <= |s|
    ensures forall c :: c in r ==> c in s
    decreases |s|
  {
    if |s| < |pat| then s
    else if s[..|pat|] == pat then RemoveAll(s[|pat|..], pat)
    else [s[0]] + RemoveAll(s[1..], pat)
  }

  /** `make_name`: drop every `PLATFORM_`, then lower-case. */
  function MakeName(key: string): (r: string)
    ensures |r| <= |key|
    ensures NoUpper(r)
  {
    Lower(RemoveAll(key, Prefix))
  }

  /** A string that lacks one of the pattern's characters holds no
      occurrence, so nothing is removed. */
  lemma {:induction false} RemoveAbsent(s: string, pat: string, j: nat)
    requires pat != [] && j < |pat| && pat[j] !in s
    ensures RemoveAll(s, pat) == s
    decreases |s|
  {
    if |s| >= |pat| {
      assert s[..|pat|][j] == s[j];
      RemoveAbsent(s[1..], pat, j);
      assert s == [s[0]] + s[1..];
    }
  }

  /** A stretch without the pattern's first character can hide no
      occurrence, so it is kept and removal carries on after it. */
  lemma {:induction false} RemoveKeeps(a: string, b: string, pat: string)
    requires pat != [] && pat[0] !in a
    ensures RemoveAll(a + b, pat) == a + RemoveAll(b, pat)
    decreases |a|
  {
    if a != [] {
      var s := a + b;
      assert s[0] == a[0];
      if |s| >= |pat| {
        assert s[..|pat|][0] != pat[0];
        assert s[1..] == a[1..] + b;
        RemoveKeeps(a[1..], b, pat);
        calc {
          RemoveAll(s, pat);
          [s[0]] + RemoveAll(s[1..], pat);
          [a[0]] + (a[1..] + RemoveAll(b, pat));
          { assert a == [a[0]] + a[1..]; }
          a + RemoveAll(b, pat);
        }
      } else {
        assert RemoveAll(b, pat) == b;
      }
    } else {
      assert a + b == b;
    }
  }

  /** An occurrence anywhere, not only at the start, is deleted: the text
      before it is kept and removal carries on after it. */
  lemma RemoveInner(a: string, b: string, pat: string)
    requires pat != [] && pat[0] !in a
    ensures RemoveAll(a + pat + b, pat) == a + RemoveAll(b, pat)
  {
    RemoveKeeps(a, pat + b, pat);
    assert a + pat + b == a + (pat + b);
    assert (pat + b)[..|pat|] == pat;
    assert (pat + b)[|pat|..] == b;
  }

  lemma LowerAppend(a: string, b: string)
    ensures Lower(a + b) == Lower(a) + Lower(b)
  {
  }

  /** `make_name` drops a `PLATFORM_` in the middle of a key: what precedes
      it is only lower-cased, and what follows is named on its own. */
  lemma MakeNameDropsInner(a: string, b: string)
    requires 'P' !in a
    ensures MakeName(a + Prefix + b) == Lower(a) + MakeName(b)
  {
    RemoveInner(a, b, Prefix);
    LowerAppend(a, RemoveAll(b, Prefix));
  }

  /** `MY_PLATFORM_KEY` is named `my_key`. */
  lemma MakeNameInnerExample()
    ensures MakeName("MY_PLATFORM_KEY") == "my_key"
  {
    assert "MY_PLATFORM_KEY" == "MY_" + Prefix + "KEY";
    MakeNameDropsInner("MY_", "KEY");
    RemoveAbsent("KEY", Prefix, 0);
    assert Lower("MY_") + Lower("KEY") == "my_key";
  }

  lemma LowerIdentity(s: string)
    requires NoUpper(s)
    ensures Lower(s) == s
  {
  }

  /** `make_name` is idempotent: its result has no upper-case letter, hence
      no `PLATFORM_` and nothing to lower. */
  lemma MakeNameIdempotent(key: string)
    ensures MakeName(MakeName(key)) == MakeName(key)
  {
    var r := MakeName(key);
    assert Prefix[0] == 'P';
    RemoveAbsent(r, Prefix, 0);
    LowerIdentity(r);
  }

  /** A leading `PLATFORM_` is removed and the rest is treated as if it
      stood alone. */
  lemma MakeNameDropsPrefix(rest: string)
    ensures MakeName(Prefix + rest) == MakeName(rest)
  {
    assert (Prefix + rest)[..|Prefix|] == Prefix;
    assert (Prefix + rest)[|Prefix|..] == rest;
  }

  lemma MakeNameBranch()
    ensures MakeName("PLATFORM_BRANCH") == "branch"
  {
    MakeNameDropsPrefix("BRANCH");
    RemoveAbsent("BRANCH", Prefix, 4);
  }

  /** Lower-case ASCII letters other than `f`, and underscores. */
  predicate PlainName(a: string) {
    forall i :: 0 <= i < |a| ==> ('a' <= a[i] <= 'z' && a[i] != 'f') || a[i] == '_'
  }

  /** For a name made of lower-case letters other than `f` and underscores,
      `make_name` undoes prefixing and upper-casing. */
  lemma MakeNameInverts(a: string)
    requires PlainName(a)
    ensures MakeName(Prefix + Upper(a)) == a
  {
    MakeNameDropsPrefix(Upper(a));
    assert Prefix[4] == 'F';
    RemoveAbsent(Upper(a), Prefix, 4);
    assert Lower(Upper(a)) == a;
  }

  /** Every allow-listed name is the attribute name of its `PLATFORM_`
      variable: `make_name` inverts the naming on that list. */
  lemma KnownAttrsInvertible(a: string)
    requires a in KnownAttrs
    ensures MakeName(Prefix + Upper(a)) == a
  {
    assert PlainName("application") && PlainName("application_name") && PlainName("app_command");
    assert PlainName("branch") && PlainName("dir") && PlainName("environment") && PlainName("project");
    assert PlainName("project_entropy") && PlainName("relationships") && PlainName("routes");
    assert PlainName("smtp_host") && PlainName("tree_id") && PlainName("variables");
    MakeNameInverts(a);
  }
}
