/** Relationship and service lookups over the decoded `relationships`
    value, and the URL streams built from them (dude/platform.py,
    `get_relationship` to `get_service_urls`). The iterators of the source
    are modelled as streams: what they yield, then the exception that ends
    them, if any. */
module Lookups {
  import opened Wrappers
  import opened Values
  import opened AttrDicts
  import opened Urls

  /** What a drained iterator produced: the items it yielded in order, then
      the exception that ended it, if one did. */
  datatype Stream<T> = Stream(items: seq<T>, error: Option<Error>)

  /** `iter(v)`: a list yields its items, a mapping its keys, a string its
      one-character strings; numbers, booleans and `None` are not
      iterable. */
  function Iterate(v: Value): (r: Result<seq<Value>, Error>)
    ensures r.Ok? <==> v.Arr? || v.Obj? || v.Str?
    ensures r.Err? ==> r.error == TypeError
    ensures v.Arr? ==> r == Ok(v.items)
    ensures v.Obj? ==> r.Ok? && |r.value| == |v.entries|
    ensures v.Obj? ==> forall i :: 0 <= i < |v.entries| ==> r.value[i] == Str(v.entries[i].0)
    ensures v.Str? ==> r.Ok? && |r.value| == |v.s|
    ensures v.Str? ==> forall i :: 0 <= i < |v.s| ==> r.value[i] == Str([v.s[i]])
  {
    match v
    case Arr(items) => Ok(items)
    case Obj(es) => Ok(seq(|es|, i requires 0 <= i < |es| => Str(es[i].0)))
    case Str(s) => Ok(seq(|s|, i requires 0 <= i < |s| => Str([s[i]])))
    case _ => Err(TypeError)
  }

  /** `d.values()` of a mapping, in insertion order. */
  function DictValues(d: Entries): (vs: seq<Value>)
    ensures |vs| == |d|
    ensures forall i :: 0 <= i < |d| ==> vs[i] == d[i].1
  {
    seq(|d|, i requires 0 <= i < |d| => d[i].1)
  }

  /** `rels[name]`: a mapping is indexed by key; a list, a string or a
      number cannot be indexed by a string. */
  function Subscript(rels: Value, name: string): (r: Result<Value, Error>)
    ensures rels.Obj? ==> (r.Ok? <==> name in Keys(rels.entries))
    ensures rels.Obj? && r.Err? ==> r.error == KeyError(name)
    ensures !rels.Obj? ==> r == Err(TypeError)
  {
    if rels.Obj? then Index(rels.entries, name) else Err(TypeError)
  }

  /** `get_relationship(name)` once `self.relationships` has been read as
      `rels`: `None` when that is falsy, otherwise `rels[name]`. */
  function Relationship(rels: Value, name: string): (r: Result<Value, Error>)
    ensures !Truthy(rels) ==> r == Ok(Null)
    ensures Truthy(rels) && rels.Obj? ==> (r.Ok? <==> name in Keys(rels.entries))
    ensures Truthy(rels) && rels.Obj? && r.Err? ==> r.error == KeyError(name)
    ensures Truthy(rels) && rels.Obj? && r.Ok? ==> Index(rels.entries, name) == r
    ensures Truthy(rels) && !rels.Obj? ==> r == Err(TypeError)
  {
    if Truthy(rels) then Subscript(rels, name) else Ok(Null)
  }

  /** `map(f, items)`, drained: the results of `f` on the items in order
      up to the first item `f` raises on; when `f` raises on none, the
      stream ends as the underlying iterator ended (`tail`). */
  function MapStream<A, B>(f: A -> Result<B, Error>, items: seq<A>, tail: Option<Error>): (r: Stream<B>)
    ensures |r.items| <= |items|
    ensures forall i :: 0 <= i < |r.items| ==> f(items[i]) == Ok(r.items[i])
    ensures |r.items| < |items| ==> r.error.Some? && f(items[|r.items|]) == Err(r.error.value)
    ensures |r.items| == |items| ==> r.error == tail
  {
    if items == [] then Stream([], tail)
    else
      match f(items[0])
      case Err(e) => Stream([], Some(e))
      case Ok(u) =>
        var rest := MapStream(f, items[1..], tail);
        Stream([u] + rest.items, rest.error)
  }

  /** `map(make_url, items)`, drained, with `make_url` building the netloc
      that `make_netloc` assembles (see `MakeUrlIntended`): one URL per
      record, in order, up to the first record `make_url` raises on. */
  function UrlsOf(items: seq<Value>, tail: Option<Error>, lib: Lib): (r: Stream<string>)
    ensures |r.items| <= |items|
    ensures forall i :: 0 <= i < |r.items| ==> MakeUrlIntended(items[i], lib) == Ok(r.items[i])
    ensures |r.items| < |items| ==> r.error.Some? && MakeUrlIntended(items[|r.items|], lib) == Err(r.error.value)
    ensures |r.items| == |items| ==> r.error == tail
  {
    MapStream(v => MakeUrlIntended(v, lib), items, tail)
  }

  /** `map(make_url, items)`, drained, with `make_url` as written. */
  function UrlsAsWritten(items: seq<Value>, tail: Option<Error>, lib: Lib): (r: Stream<string>)
    ensures |r.items| <= |items|
    ensures forall i :: 0 <= i < |r.items| ==> MakeUrl(items[i], lib) == Ok(r.items[i])
    ensures |r.items| < |items| ==> r.error.Some? && MakeUrl(items[|r.items|], lib) == Err(r.error.value)
    ensures |r.items| == |items| ==> r.error == tail
  {
    MapStream(v => MakeUrl(v, lib), items, tail)
  }

  /** The stream the code as written yields and the corrected one have the
      same length and end in the same way; the exception that ends them
      differs only where the as-written `make_url` cannot decode a scheme
      that the corrected one rejects first. */
  lemma {:induction false} UrlsShape(items: seq<Value>, tail: Option<Error>, lib: Lib)
    ensures |UrlsAsWritten(items, tail, lib).items| == |UrlsOf(items, tail, lib).items|
    ensures UrlsAsWritten(items, tail, lib).error.Some? <==> UrlsOf(items, tail, lib).error.Some?
    ensures UrlsAsWritten(items, tail, lib).error != UrlsOf(items, tail, lib).error ==>
      UrlsAsWritten(items, tail, lib).error == Some(AttributeError("decode")) &&
      UrlsOf(items, tail, lib).error == Some(TypeError)
  {
    if items != [] {
      var a, b := UrlsAsWritten(items, tail, lib), UrlsOf(items, tail, lib);
      if MakeUrl(items[0], lib).Ok? {
        var a', b' := UrlsAsWritten(items[1..], tail, lib), UrlsOf(items[1..], tail, lib);
        UrlsShape(items[1..], tail, lib);
        assert a == Stream([MakeUrl(items[0], lib).value] + a'.items, a'.error);
        assert b == Stream([MakeUrlIntended(items[0], lib).value] + b'.items, b'.error);
      }
    }
  }

  /** `map(make_url, rel or ())`, drained: nothing for a falsy
      relationship; `TypeError` for one that cannot be iterated. */
  function UrlsOfRelationship(rel: Value, lib: Lib): (r: Stream<string>)
    ensures !Truthy(rel) ==> r == Stream([], None)
    ensures rel.Arr? ==> r == UrlsOf(rel.items, None, lib)
    ensures Truthy(rel) && !(rel.Arr? || rel.Obj? || rel.Str?) ==> r == Stream([], Some(TypeError))
  {
    if !Truthy(rel) then
      NoUrls(lib);
      Stream([], None)
    else
      var items := Iterate(rel);
      if items.Err? then Stream([], Some(items.error))
      else UrlsOf(items.value, None, lib)
  }

  /** An empty relationship has no URLs. */
  lemma NoUrls(lib: Lib)
    ensures UrlsOf([], None, lib) == Stream([], None)
  {
  }

  /** `get_relationship_urls(name)` once `self.relationships` has been read
      as `rels`: `map(make_url, get_relationship(name) or ())`. */
  function RelationshipUrls(rels: Value, name: string, lib: Lib): (r: Stream<string>)
    ensures !Truthy(rels) ==> r == Stream([], None)
    ensures Relationship(rels, name).Err? ==> r == Stream([], Some(Relationship(rels, name).error))
    ensures Relationship(rels, name).Ok? && Relationship(rels, name).value.Arr? ==>
      r == UrlsOf(Relationship(rels, name).value.items, None, lib)
    ensures Relationship(rels, name).Ok? ==> r == UrlsOfRelationship(Relationship(rels, name).value, lib)
  {
    match Relationship(rels, name)
    case Err(e) => Stream([], Some(e))
    case Ok(v) => UrlsOfRelationship(v, lib)
  }

  /** The record has a `service` key: reading `svc.service` does not raise. */
  predicate HasService(svc: Value) {
    svc.Obj? && "service" in Keys(svc.entries)
  }

  /** The record's `service` is `service`. */
  predicate Provides(svc: Value, service: string) {
    svc.Obj? && Index(svc.entries, "service") == Ok(Str(service))
  }

  /** `svc.service == service`: only an `attrdict` with a `service` key can
      answer; anything else raises `AttributeError`. */
  function IsService(svc: Value, service: string): (r: Result<bool, Error>)
    ensures r.Ok? <==> HasService(svc)
    ensures r.Err? ==> r.error == AttributeError("service")
    ensures r == Ok(true) <==> Provides(svc, service)
  {
    if !svc.Obj? then Err(AttributeError("service"))
    else
      match GetAttr(svc.entries, "service")
      case Ok(v) => Ok(v == Str(service))
      case Err(e) => Err(e)
  }

  /** What the inner loop of `get_service` has yielded after the records
      `svcs`: the matching ones, stopping at the first that has no
      `service`. */
  function Matching(svcs: seq<Value>, service: string): (r: Stream<Value>)
    ensures forall i :: 0 <= i < |r.items| ==> Provides(r.items[i], service)
    decreases |svcs|
  {
    if svcs == [] then Stream([], None)
    else
      var s := Matching(svcs[..|svcs| - 1], service);
      if s.error.Some? then s
      else
        match IsService(svcs[|svcs| - 1], service)
        case Err(e) => Stream(s.items, Some(e))
        case Ok(b) => if b then Stream(s.items + [svcs[|svcs| - 1]], None) else s
  }

  /** What the outer loop of `get_service` has yielded after the
      relationship values `values`. */
  function ServicesIn(values: seq<Value>, service: string): (r: Stream<Value>)
    ensures forall i :: 0 <= i < |r.items| ==> Provides(r.items[i], service)
    decreases |values|
  {
    if values == [] then Stream([], None)
    else
      var s := ServicesIn(values[..|values| - 1], service);
      if s.error.Some? then s
      else
        match Iterate(values[|values| - 1])
        case Err(e) => Stream(s.items, Some(e))
        case Ok(svcs) =>
          var m := Matching(svcs, service);
          Stream(s.items + m.items, m.error)
  }

  /** `get_service(service)` once `self.relationships` has been read as
      `rels`: nothing when that is falsy; `rels.values()` raises
      `AttributeError` on anything but a mapping. */
  function ServiceStream(rels: Value, service: string): (r: Stream<Value>)
    ensures !Truthy(rels) ==> r == Stream([], None)
    ensures Truthy(rels) && !rels.Obj? ==> r == Stream([], Some(AttributeError("values")))
    ensures forall i :: 0 <= i < |r.items| ==> Provides(r.items[i], service)
  {
    if !Truthy(rels) then Stream([], None)
    else if !rels.Obj? then Stream([], Some(AttributeError("values")))
    else ServicesIn(DictValues(rels.entries), service)
  }

  /** Once the inner loop has raised, the later records are never looked at. */
  lemma {:induction false} MatchingStops(svcs: seq<Value>, service: string, j: nat)
    requires j <= |svcs| && Matching(svcs[..j], service).error.Some?
    ensures Matching(svcs, service) == Matching(svcs[..j], service)
    decreases |svcs| - j
  {
    if j == |svcs| {
      assert svcs[..j] == svcs;
    } else {
      assert svcs[..j + 1][..j] == svcs[..j];
      MatchingStops(svcs, service, j + 1);
    }
  }

  /** Once the outer loop has raised, the later values are never looked at. */
  lemma {:induction false} ServicesStop(values: seq<Value>, service: string, i: nat)
    requires i <= |values| && ServicesIn(values[..i], service).error.Some?
    ensures ServicesIn(values, service) == ServicesIn(values[..i], service)
    decreases |values| - i
  {
    if i == |values| {
      assert values[..i] == values;
    } else {
      assert values[..i + 1][..i] == values[..i];
      ServicesStop(values, service, i + 1);
    }
  }

  /** The records that provide `service`, in order: a reference filter. */
  function Select(svcs: seq<Value>, service: string): seq<Value> {
    if svcs == [] then []
    else (if Provides(svcs[0], service) then [svcs[0]] else []) + Select(svcs[1..], service)
  }

  /** What iterating each value gives, one after the other: a reference
      flattening. */
  function Flatten(values: seq<Value>): seq<Value> {
    if values == [] then []
    else (match Iterate(values[0]) case Ok(m) => m case Err(_) => []) + Flatten(values[1..])
  }

  lemma {:induction false} SelectAppend(a: seq<Value>, b: seq<Value>, service: string)
    ensures Select(a + b, service) == Select(a, service) + Select(b, service)
  {
    if a != [] {
      assert (a + b)[1..] == a[1..] + b;
      SelectAppend(a[1..], b, service);
    } else {
      assert a + b == b;
    }
  }

  lemma {:induction false} FlattenAppend(a: seq<Value>, v: Value)
    ensures Flatten(a + [v]) == Flatten(a) + (match Iterate(v) case Ok(m) => m case Err(_) => [])
  {
    if a != [] {
      assert (a + [v])[1..] == a[1..] + [v];
      FlattenAppend(a[1..], v);
    }
  }

  /** The inner loop runs to the end exactly when every record has a
      `service`, and then it yields exactly the records that provide
      `service`, in order. */
  lemma {:induction false} MatchingSelects(svcs: seq<Value>, service: string)
    ensures Matching(svcs, service).error.None? <==> AllHaveService(svcs)
    ensures Matching(svcs, service).error.None? ==> Matching(svcs, service).items == Select(svcs, service)
    decreases |svcs|
  {
    if svcs != [] {
      var init, last := svcs[..|svcs| - 1], svcs[|svcs| - 1];
      assert svcs == init + [last];
      MatchingSelects(init, service);
      AllHaveServiceAppend(init, [last]);
      SelectAppend(init, [last], service);
      assert Select([last], service) == (if Provides(last, service) then [last] else []);
    }
  }

  /** Every value can be iterated. */
  predicate Iterable(values: seq<Value>) {
    forall i :: 0 <= i < |values| ==> Iterate(values[i]).Ok?
  }

  /** Every record has a `service`. */
  predicate AllHaveService(svcs: seq<Value>) {
    forall k :: 0 <= k < |svcs| ==> HasService(svcs[k])
  }

  lemma IterableAppend(init: seq<Value>, last: Value)
    ensures Iterable(init + [last]) <==> Iterable(init) && Iterate(last).Ok?
  {
    var values := init + [last];
    if Iterable(values) {
      assert values[|init|] == last;
      forall i | 0 <= i < |init| ensures Iterate(init[i]).Ok? {
        assert values[i] == init[i];
      }
    }
    if Iterable(init) && Iterate(last).Ok? {
      forall i | 0 <= i < |values| ensures Iterate(values[i]).Ok? {
        if i < |init| { assert values[i] == init[i]; }
      }
    }
  }

  lemma AllHaveServiceAppend(a: seq<Value>, b: seq<Value>)
    ensures AllHaveService(a + b) <==> AllHaveService(a) && AllHaveService(b)
  {
    if AllHaveService(a) && AllHaveService(b) {
      forall k | 0 <= k < |a + b| ensures HasService((a + b)[k]) {
        if k >= |a| { assert (a + b)[k] == b[k - |a|]; }
      }
    }
    if AllHaveService(a + b) {
      forall k | 0 <= k < |a| ensures HasService(a[k]) {
        assert (a + b)[k] == a[k];
      }
      forall k | 0 <= k < |b| ensures HasService(b[k]) {
        assert (a + b)[|a| + k] == b[k];
      }
    }
  }

  /** The outer loop runs to the end exactly when every relationship value
      is iterable and every record in them has a `service`; it then yields
      exactly the records that provide `service`, relationship by
      relationship and in list order within each. */
  lemma {:induction false} ServicesSelect(values: seq<Value>, service: string)
    ensures ServicesIn(values, service).error.None? <==> Iterable(values) && AllHaveService(Flatten(values))
    ensures ServicesIn(values, service).error.None? ==>
      ServicesIn(values, service).items == Select(Flatten(values), service)
    decreases |values|
  {
    if values != [] {
      var init, last := values[..|values| - 1], values[|values| - 1];
      assert values == init + [last];
      ServicesSelect(init, service);
      FlattenAppend(init, last);
      IterableAppend(init, last);
      var m := match Iterate(last) case Ok(m) => m case Err(_) => [];
      AllHaveServiceAppend(Flatten(init), m);
      if ServicesIn(init, service).error.None? && Iterate(last).Ok? {
        MatchingSelects(m, service);
        SelectAppend(Flatten(init), m, service);
      }
    }
  }

  /** When `get_service_urls` runs to the end, it gives one URL per record
      `get_service` yields, in the same order, and those records are the
      ones that provide `service`, relationship by relationship. */
  lemma ServiceUrlsFollowServices(rels: Value, service: string, lib: Lib)
    requires UrlsOf(ServiceStream(rels, service).items, ServiceStream(rels, service).error, lib).error.None?
    ensures ServiceStream(rels, service).error.None?
    ensures var s := ServiceStream(rels, service);
      var u := UrlsOf(s.items, s.error, lib);
      |u.items| == |s.items| && forall i :: 0 <= i < |s.items| ==> MakeUrlIntended(s.items[i], lib) == Ok(u.items[i])
    ensures Truthy(rels) && rels.Obj? ==>
      ServiceStream(rels, service).items == Select(Flatten(DictValues(rels.entries)), service)
  {
    if Truthy(rels) && rels.Obj? {
      ServicesSelect(DictValues(rels.entries), service);
    }
  }

  /** The relationships value of the documentation: one relationship,
      `database`, listing the two example records. */
  const ExampleRelationships: Value := Obj([("database", Arr([Db1, Db2]))])

  lemma ExampleDatabase()
    ensures Relationship(ExampleRelationships, "database") == Ok(Arr([Db1, Db2]))
  {
  }

  /** Mapping over two records whose URLs are `u1` and `u2`. */
  lemma UrlsOfTwo(v1: Value, v2: Value, u1: string, u2: string, lib: Lib)
    requires MakeUrlIntended(v1, lib) == Ok(u1) && MakeUrlIntended(v2, lib) == Ok(u2)
    ensures UrlsOf([v1, v2], None, lib) == Stream([u1, u2], None)
  {
    var f := v => MakeUrlIntended(v, lib);
    assert [v1, v2][1..] == [v2];
    assert MapStream(f, [v2], None) == Stream([u2], None);
  }

  /** As written, mapping over two records whose URLs are `u1` and `u2`. */
  lemma UrlsAsWrittenTwo(v1: Value, v2: Value, u1: string, u2: string, lib: Lib)
    requires MakeUrl(v1, lib) == Ok(u1) && MakeUrl(v2, lib) == Ok(u2)
    ensures UrlsAsWritten([v1, v2], None, lib) == Stream([u1, u2], None)
  {
    var f := v => MakeUrl(v, lib);
    assert [v1, v2][1..] == [v2];
    assert MapStream(f, [v2], None) == Stream([u2], None);
  }

  /** As written, the documented relationship gives `postgres:` for each
      database record: the hosts and the port are lost. */
  lemma ExampleRelationshipUrlsAsWritten(lib: Lib)
    ensures Relationship(ExampleRelationships, "database") == Ok(Arr([Db1, Db2]))
    ensures UrlsAsWritten([Db1, Db2], None, lib) == Stream(["postgres:", "postgres:"], None)
  {
    ExampleDatabase();
    Db1UrlAsWritten(lib);
    Db2UrlAsWritten(lib);
    UrlsAsWrittenTwo(Db1, Db2, "postgres:", "postgres:", lib);
  }

  /** With the corrected `make_url`, the documented relationship gives one
      URL per database record, in list order, each with its host and
      port. */
  lemma ExampleRelationshipUrls(lib: Lib)
    ensures RelationshipUrls(ExampleRelationships, "database", lib)
         == Stream(["postgres://db1:5432", "postgres://db2"], None)
  {
    ExampleDatabase();
    Db1UrlIntended(lib);
    Db2UrlIntended(lib);
    UrlsOfTwo(Db1, Db2, "postgres://db1:5432", "postgres://db2", lib);
  }
}
