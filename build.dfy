/** `build_environment`: which environment keys the object keeps, which of
    them are decoded as JSON, and the attribute each is bound to
    (dude/platform.py). The process environment is passed in as its keys in
    `os.environ` order; the values are read later, at each attribute
    access. */
module Build {
  import opened Names
  import opened Platform

  predicate StartsWith(s: string, p: string) {
    |p| <= |s| && s[..|p|] == p
  }

  /** The filter of the key comprehension: a `PLATFORM` prefix (no
      underscore needed), or named among the extra keys or the keyword
      arguments. */
  predicate Kept(key: string, extra: seq<string>, kwargs: set<string>) {
    StartsWith(key, "PLATFORM") || key in extra || key in kwargs
  }

  /** The kept keys, in environment order. */
  function SelectKeys(environ: seq<string>, extra: seq<string>, kwargs: set<string>): (ks: seq<string>)
    ensures |ks| <= |environ|
    ensures forall k :: k in ks <==> k in environ && Kept(k, extra, kwargs)
  {
    if environ == [] then []
    else (if Kept(environ[0], extra, kwargs) then [environ[0]] else []) + SelectKeys(environ[1..], extra, kwargs)
  }

  /** Selecting keeps the environment's order: selecting from two runs of
      keys is selecting from each in turn. */
  lemma {:induction false} SelectKeysAppend(a: seq<string>, b: seq<string>, extra: seq<string>, kwargs: set<string>)
    ensures SelectKeys(a + b, extra, kwargs) == SelectKeys(a, extra, kwargs) + SelectKeys(b, extra, kwargs)
  {
    if a == [] {
      assert a + b == b;
    } else {
      assert (a + b)[1..] == a[1..] + b;
      SelectKeysAppend(a[1..], b, extra, kwargs);
    }
  }

  predicate Distinct(s: seq<string>) {
    forall i, j :: 0 <= i < j < |s| ==> s[i] != s[j]
  }

  /** The environment holds each key once, and so do the kept keys. */
  lemma {:induction false} SelectKeysDistinct(environ: seq<string>, extra: seq<string>, kwargs: set<string>)
    requires Distinct(environ)
    ensures Distinct(SelectKeys(environ, extra, kwargs))
  {
    if environ != [] {
      var rest := SelectKeys(environ[1..], extra, kwargs);
      SelectKeysDistinct(environ[1..], extra, kwargs);
      assert environ[0] !in environ[1..];
      assert environ[0] !in rest;
      var ks := SelectKeys(environ, extra, kwargs);
      if Kept(environ[0], extra, kwargs) {
        assert ks == [environ[0]] + rest;
        forall i, j | 0 <= i < j < |ks| ensures ks[i] != ks[j] {
          if i == 0 {
            assert ks[j] == rest[j - 1];
            assert ks[j] in rest;
          } else {
            assert ks[i] == rest[i - 1] && ks[j] == rest[j - 1];
          }
        }
      }
    }
  }

  /** `key in is_json`: one of the JSON variables, or a keyword argument
      (whatever its value). */
  predicate IsJson(key: string, kwargs: set<string>) {
    key in JsonVars || key in kwargs
  }

  /** The descriptors of the attribute dict comprehension: one per key,
      under `make_name(key)`; when two keys share a name the later one
      wins. */
  function BindingsOf(keys: seq<string>, kwargs: set<string>): (m: map<string, Binding>)
    ensures forall k :: k in keys ==> MakeName(k) in m
    ensures forall n :: n in m ==> exists k :: k in keys && MakeName(k) == n
    decreases |keys|
  {
    if keys == [] then map[]
    else
      var init, k := keys[..|keys| - 1], keys[|keys| - 1];
      assert keys == init + [k];
      BindingsOf(init, kwargs)[MakeName(k) := Binding(k, IsJson(k, kwargs))]
  }

  /** `keys[i]` is the last key named `n`. */
  predicate LastNamed(keys: seq<string>, n: string, i: int) {
    && 0 <= i < |keys| && MakeName(keys[i]) == n
    && forall j :: i < j < |keys| ==> MakeName(keys[j]) != n
  }

  lemma LastNamedExtend(init: seq<string>, k: string, n: string, i: int)
    requires LastNamed(init, n, i) && MakeName(k) != n
    ensures LastNamed(init + [k], n, i)
  {
    var keys := init + [k];
    forall j | i < j < |keys| ensures MakeName(keys[j]) != n {
      if j < |init| {
        assert keys[j] == init[j];
      }
    }
  }

  /** The binding for a name reads the last key with that name, and decodes
      JSON exactly when that key is a JSON variable or a keyword
      argument. */
  lemma {:induction false} BindingsOfLast(keys: seq<string>, kwargs: set<string>, n: string)
    requires n in BindingsOf(keys, kwargs)
    ensures exists i :: LastNamed(keys, n, i) && BindingsOf(keys, kwargs)[n] == Binding(keys[i], IsJson(keys[i], kwargs))
    decreases |keys|
  {
    var init, k := keys[..|keys| - 1], keys[|keys| - 1];
    assert keys == init + [k];
    if MakeName(k) == n {
      assert LastNamed(keys, n, |keys| - 1);
    } else {
      BindingsOfLast(init, kwargs, n);
      var i :| LastNamed(init, n, i) && BindingsOf(init, kwargs)[n] == Binding(init[i], IsJson(init[i], kwargs));
      LastNamedExtend(init, k, n, i);
      assert keys[i] == init[i];
    }
  }

  /** `build_environment(*extra, **kwargs)` over an environment whose keys
      are `environ`, in order. */
  method BuildEnvironment(environ: seq<string>, extra: seq<string>, kwargs: set<string>) returns (e: Environment)
    ensures fresh(e)
    ensures e.keys == SelectKeys(environ, extra, kwargs)
    ensures e.bindings == BindingsOf(e.keys, kwargs)
    ensures e.Valid()
  {
    var keys := SelectKeys(environ, extra, kwargs);
    e := new Environment(keys, BindingsOf(keys, kwargs));
  }

  /** The documented call `build_environment('SENDGRID_TOKEN',
      METADATA=True)` in an environment that also holds `HOME`: the
      platform key and both named keys are kept, in order; `HOME` is not. */
  lemma DocumentedKeys()
    ensures SelectKeys(["PLATFORM_APPLICATION_NAME", "HOME", "SENDGRID_TOKEN", "METADATA"], ["SENDGRID_TOKEN"], {"METADATA"})
      == ["PLATFORM_APPLICATION_NAME", "SENDGRID_TOKEN", "METADATA"]
  {
    var extra, kwargs := ["SENDGRID_TOKEN"], {"METADATA"};
    assert Kept("PLATFORM_APPLICATION_NAME", extra, kwargs) by {
      assert "PLATFORM_APPLICATION_NAME"[..8] == "PLATFORM";
    }
    assert !Kept("HOME", extra, kwargs) by {
      assert "HOME"[0] != 'P';
      assert "HOME" != "SENDGRID_TOKEN";
    }
    assert Kept("SENDGRID_TOKEN", extra, kwargs);
    assert Kept("METADATA", extra, kwargs);
  }
}
