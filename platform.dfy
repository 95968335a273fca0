/** The environment object `build_environment` returns: one binding per
    environment key, attribute reads through those bindings, its `repr`,
    its `.sh` serialisation and the relationship and service lookups
    (dude/platform.py, `decode_json`, `EnvDescriptor` and `Environment`). */
module Platform {
  import opened Wrappers
  import opened Values
  import opened AttrDicts
  import opened Names
  import opened Shell
  import opened Text
  import opened Urls
  import opened Lookups

  /** An `EnvDescriptor`: the variable it reads and whether its converter is
      `decode_json` (otherwise the text is returned as it is). */
  datatype Binding = Binding(variable: string, json: bool)

  /** `decode_json`: base64, then JSON with every object made an `attrdict`. */
  function DecodeJson(data: string, lib: Lib): (r: Result<Value, Error>)
    ensures lib.b64Decode(data).None? ==> r == Err(Base64Error)
    ensures lib.b64Decode(data).Some? ==> (r == Err(JsonError) <==> lib.jsonLoads(lib.b64Decode(data).value).None?)
    ensures r.Err? ==> r.error == Base64Error || r.error == JsonError
    ensures lib.b64Decode(data).Some? && lib.jsonLoads(lib.b64Decode(data).value).Some? ==>
      r == Ok(Materialize(lib.jsonLoads(lib.b64Decode(data).value).value))
    ensures r.Ok? ==> WellFormed(r.value)
  {
    match lib.b64Decode(data)
    case None => Err(Base64Error)
    case Some(bytes) =>
      match lib.jsonLoads(bytes)
      case None => Err(JsonError)
      case Some(v) => MaterializeWellFormed(v); Ok(Materialize(v))
  }

  /** Decoding a variable whose JSON text is an object and then reading a
      key of the result as an attribute gives the decoded value of the last
      pair with that key; a key the text lacks gives `AttributeError(k)`. */
  lemma DecodeThenRead(data: string, lib: Lib, es: Entries, k: string)
    requires lib.b64Decode(data).Some? && lib.jsonLoads(lib.b64Decode(data).value) == Some(Obj(es))
    ensures DecodeJson(data, lib).Ok? && DecodeJson(data, lib).value.Obj?
    ensures k in Keys(es) ==>
      exists i :: 0 <= i < |es| && es[i].0 == k &&
        GetAttr(DecodeJson(data, lib).value.entries, k) == Ok(Materialize(es[i].1)) &&
        forall j :: i < j < |es| ==> es[j].0 != k
    ensures k !in Keys(es) ==> GetAttr(DecodeJson(data, lib).value.entries, k) == Err(AttributeError(k))
  {
    DecodedAttribute(es, k);
  }

  /** `EnvDescriptor.__get__`: the variable is read afresh from `env`; an
      absent or empty variable reads as `None`, any other is converted. */
  function ReadBinding(b: Binding, env: map<string, string>, lib: Lib): (r: Result<Value, Error>)
    ensures b.variable !in env || env[b.variable] == "" ==> r == Ok(Null)
    ensures b.variable in env && env[b.variable] != "" && b.json ==> r == DecodeJson(env[b.variable], lib)
    ensures b.variable in env && env[b.variable] != "" && !b.json ==> r == Ok(Str(env[b.variable]))
    ensures !b.json ==> r.Ok? && (r.value == Null || (r.value.Str? && Truthy(r.value)))
  {
    if b.variable !in env || env[b.variable] == "" then Ok(Null)
    else if b.json then DecodeJson(env[b.variable], lib)
    else Ok(Str(env[b.variable]))
  }

  /** The name of the class `build_environment` synthesizes, with the
      opening parenthesis of its `repr`. */
  const ReprHead: string := "PlatformEnvironment("

  /** Undoes the `, ` separator of a `repr`: every part must start with the
      space. */
  function Unpad(parts: seq<string>): Option<seq<string>> {
    if parts == [] then Some([])
    else if parts[0] == [] || parts[0][0] != ' ' then None
    else
      match Unpad(parts[1..])
      case None => None
      case Some(rest) => Some([parts[0][1..]] + rest)
  }

  lemma {:induction false} UnpadPadded(parts: seq<string>)
    ensures Unpad(Padded(parts, " ")) == Some(parts)
  {
    if parts != [] {
      var p := Padded(parts, " ");
      assert p[0] == " " + parts[0] && p[0][0] == ' ';
      assert p[1..] == Padded(parts[1..], " ");
      UnpadPadded(parts[1..]);
      assert (" " + parts[0])[1..] == parts[0];
      assert p != [] && p[0] != [];
      assert parts == [parts[0]] + parts[1..];
    }
  }

  /** Reads the keys back out of a `repr`. */
  function ParseRepr(s: string): Option<seq<string>> {
    if |s| <= |ReprHead| || s[..|ReprHead|] != ReprHead || s[|s| - 1] != ')' then None
    else
      var inner := s[|ReprHead|..|s| - 1];
      if inner == "" then Some([])
      else
        var parts := Split(inner, ',');
        match Unpad(parts[1..])
        case None => None
        case Some(rest) => Some([parts[0]] + rest)
  }

  /** Keys that are not empty and hold no comma. */
  predicate PlainKeys(keys: seq<string>) {
    forall i :: 0 <= i < |keys| ==> keys[i] != "" && ',' !in keys[i]
  }

  /** The text between the parentheses reads back as the keys. */
  lemma {:induction false} SplitKeys(keys: seq<string>)
    requires keys != [] && PlainKeys(keys)
    ensures Join(keys, ", ") != ""
    ensures Split(Join(keys, ", "), ',') == [keys[0]] + Padded(keys[1..], " ")
  {
    var inner := Join(keys, ", ");
    if |keys| > 1 {
      assert inner == keys[0] + ", " + Join(keys[1..], ", ");
    }
    assert |inner| >= |keys[0]|;
    assert [','] + " " == ", ";
    SplitPaddedJoin("", keys, ',', " ");
    assert "" + inner == inner;
    assert "" + keys[0] == keys[0];
  }

  /** A `repr` reads back as its keys when none is empty or holds a comma. */
  lemma ReprKeys(keys: seq<string>)
    requires PlainKeys(keys)
    ensures ParseRepr(ReprHead + Join(keys, ", ") + ")") == Some(keys)
  {
    var inner := Join(keys, ", ");
    var r := ReprHead + inner + ")";
    assert r[..|ReprHead|] == ReprHead;
    assert r[|ReprHead|..|r| - 1] == inner;
    if keys != [] {
      SplitKeys(keys);
      var parts := Split(inner, ',');
      assert parts[0] == keys[0];
      assert parts[1..] == Padded(keys[1..], " ");
      UnpadPadded(keys[1..]);
      assert keys == [keys[0]] + keys[1..];
    }
  }

  /** What the nested `quote` of `__str__` shell-quotes for a value: a
      string as it is; anything else, `None` included, as the base64 text
      of its compact, key-sorted JSON. */
  function ShellText(v: Value, lib: Lib): (r: string)
    ensures v.Str? ==> r == v.s
    ensures !v.Str? ==> r == lib.b64Encode(lib.jsonDumps(v))
  {
    if v.Str? then v.s else lib.b64Encode(lib.jsonDumps(v))
  }

  /** The text written for a value that is not a string is read back by
      `decode_json`, whenever base64 and JSON decode what they encoded. */
  lemma ShellTextDecodes(v: Value, lib: Lib)
    requires !v.Str?
    requires lib.b64Decode(lib.b64Encode(lib.jsonDumps(v))).Some?
    requires lib.jsonLoads(lib.b64Decode(lib.b64Encode(lib.jsonDumps(v))).value) == Some(v)
    ensures DecodeJson(ShellText(v, lib), lib) == Ok(Materialize(v))
  {
  }

  const DeclareHead: string := "declare -x "
  const LineEnd: string := ";\n"

  /** One `declare -x` line: the raw key, `=`, the quoted text. A line
      reads back as its key and the text of its value, whatever the value,
      for any key without `=`. */
  function FormatLine(key: string, v: Value, lib: Lib): (r: string)
    ensures '=' !in key ==> ParseLine(r) == Some((key, ShellText(v, lib)))
  {
    var text := ShellText(v, lib);
    if '=' in key then DeclareHead + key + "=" + Quote(text) + LineEnd
    else
      QuoteRoundTrip(text);
      ParseDeclaration(key, Quote(text), text);
      DeclareHead + key + "=" + Quote(text) + LineEnd
  }

  /** Reads a `declare -x` line back: the key up to the first `=`, and the
      value a shell gives the word after it. */
  function ParseLine(line: string): Option<(string, string)> {
    if |line| < |DeclareHead| + |LineEnd| || line[..|DeclareHead|] != DeclareHead
      || line[|line| - |LineEnd|..] != LineEnd
    then None
    else
      var body := line[|DeclareHead|..|line| - |LineEnd|];
      var i := Find(body, '=');
      if i == |body| then None
      else
        match Unquote(body[i + 1..])
        case None => None
        case Some(text) => Some((body[..i], text))
  }

  /** A line whose word a shell reads as `text` reads back as its key and
      `text`, for any key without `=`. */
  lemma ParseDeclaration(key: string, q: string, text: string)
    requires '=' !in key && Unquote(q) == Some(text)
    ensures ParseLine(DeclareHead + key + "=" + q + LineEnd) == Some((key, text))
  {
    var body := key + "=" + q;
    var line := DeclareHead + key + "=" + q + LineEnd;
    assert line == DeclareHead + body + LineEnd;
    assert line[..|DeclareHead|] == DeclareHead;
    assert line[|line| - |LineEnd|..] == LineEnd;
    assert line[|DeclareHead|..|line| - |LineEnd|] == body;
    FindAfter(key, '=', q);
    assert body == key + ['='] + q;
    assert body[..|key|] == key;
    assert body[|key| + 1..] == q;
  }

  /** The inner loop of `get_service`: the records of one relationship that
      provide `service`, in order, stopping at the first record without a
      `service` attribute. */
  method MatchingServices(svcs: seq<Value>, service: string) returns (found: seq<Value>, error: Option<Error>)
    ensures Stream(found, error) == Matching(svcs, service)
  {
    found, error := [], None;
    var j := 0;
    while j < |svcs|
      invariant 0 <= j <= |svcs|
      invariant Matching(svcs[..j], service) == Stream(found, None)
    {
      assert svcs[..j + 1][..j] == svcs[..j];
      var m := IsService(svcs[j], service);
      if m.Err? {
        error := Some(m.error);
        MatchingStops(svcs, service, j + 1);
        return;
      }
      if m.value {
        found := found + [svcs[j]];
      }
      j := j + 1;
    }
    assert svcs[..j] == svcs;
  }

  /** The object `build_environment` returns: its `_keys` and the
      descriptors its synthesized class carries, by attribute name. Both are
      fixed once built; the variables themselves are read from `env` on
      every access. */
  class Environment {
    const keys: seq<string>
    const bindings: map<string, Binding>

    constructor (keys: seq<string>, bindings: map<string, Binding>)
      ensures this.keys == keys && this.bindings == bindings
    {
      this.keys := keys;
      this.bindings := bindings;
    }

    /** Every key's attribute name is bound, as `build_environment` makes
        sure. */
    predicate Valid() {
      forall k :: k in keys ==> MakeName(k) in bindings
    }

    /** Once every key's name is bound, the attribute of each key is read
        through its descriptor: `__getattr__`'s bare `AttributeError` is out
        of reach for the keys. */
    lemma KeyAttributes(env: map<string, string>, lib: Lib)
      requires Valid()
      ensures forall k :: k in keys ==> Attribute(MakeName(k), env, lib) == ReadBinding(bindings[MakeName(k)], env, lib)
      ensures forall k :: k in keys ==> Attribute(MakeName(k), env, lib) != Err(AttributeError(""))
    {
    }

    /** `getattr(env, name)`: a bound name goes through its descriptor;
        otherwise `__getattr__` answers `None` for a known attribute and
        raises a bare `AttributeError` for anything else. */
    function Attribute(name: string, env: map<string, string>, lib: Lib): (r: Result<Value, Error>)
      ensures name in bindings ==> r == ReadBinding(bindings[name], env, lib)
      ensures name !in bindings && name in KnownAttrs ==> r == Ok(Null)
      ensures r == Err(AttributeError("")) <==> name !in bindings && name !in KnownAttrs
      ensures r.Err? ==> r.error == AttributeError("") || r.error == Base64Error || r.error == JsonError
    {
      if name in bindings then ReadBinding(bindings[name], env, lib)
      else if name in KnownAttrs then Ok(Null)
      else Err(AttributeError(""))
    }

    /** `repr(env)`: the class name and the keys, comma separated. */
    function Repr(): (r: string)
      ensures |r| > |ReprHead| && r[..|ReprHead|] == ReprHead && r[|r| - 1] == ')'
    {
      ReprHead + Join(keys, ", ") + ")"
    }

    /** The keys can be read back from the `repr` when none is empty or
        holds a comma. */
    lemma ReprRoundTrip()
      requires PlainKeys(keys)
      ensures ParseRepr(Repr()) == Some(keys)
    {
      ReprKeys(keys);
    }

    /** The line `__str__` writes for `key`: the raw key and the value of
        the attribute `make_name(key)`. */
    function Line(key: string, env: map<string, string>, lib: Lib): (r: Result<string, Error>)
      ensures r.Err? <==> Attribute(MakeName(key), env, lib).Err?
      ensures r.Err? ==> r.error == Attribute(MakeName(key), env, lib).error
      ensures r.Ok? && '=' !in key ==>
        ParseLine(r.value) == Some((key, ShellText(Attribute(MakeName(key), env, lib).value, lib)))
    {
      match Attribute(MakeName(key), env, lib)
      case Err(e) => Err(e)
      case Ok(v) => Ok(FormatLine(key, v, lib))
    }

    /** The lines for `ks`, as the generator `''.join` drains: every key's
        line in order, up to the first key whose value cannot be read. */
    function Lines(ks: seq<string>, env: map<string, string>, lib: Lib): (r: Stream<string>)
      ensures |r.items| <= |ks|
      ensures r.error == None ==> |r.items| == |ks|
      ensures forall i :: 0 <= i < |r.items| ==> Line(ks[i], env, lib) == Ok(r.items[i])
      ensures r.error.Some? ==> |r.items| < |ks| && Line(ks[|r.items|], env, lib) == Err(r.error.value)
      ensures r.error == None <==> forall i :: 0 <= i < |ks| ==> Line(ks[i], env, lib).Ok?
    {
      MapStream(k => Line(k, env, lib), ks, None)
    }

    /** `str(env)`: one line per key of `_keys`, in that order. Once every
        key's name is bound, only a variable that fails to decode can make
        it raise. */
    function Serialize(env: map<string, string>, lib: Lib): (r: Result<string, Error>)
      ensures r.Ok? <==> forall i :: 0 <= i < |keys| ==> Line(keys[i], env, lib).Ok?
      ensures r.Ok? ==> r.value == Join(Lines(keys, env, lib).items, "")
      ensures r.Err? ==> Some(r.error) == Lines(keys, env, lib).error
      ensures r.Err? ==> exists n :: 0 <= n < |keys| && Line(keys[n], env, lib) == Err(r.error)
                          && forall i :: 0 <= i < n ==> Line(keys[i], env, lib).Ok?
      ensures Valid() && r.Err? ==> r.error == Base64Error || r.error == JsonError
    {
      var lines := Lines(keys, env, lib);
      if lines.error.Some? then
        assert Valid() ==> forall i :: 0 <= i < |keys| ==> keys[i] in keys;
        var n := |lines.items|;
        assert forall i :: 0 <= i < n ==> Line(keys[i], env, lib).Ok?;
        Err(lines.error.value)
      else Ok(Join(lines.items, ""))
    }

    /** `self.relationships`. */
    function Relationships(env: map<string, string>, lib: Lib): (r: Result<Value, Error>)
      ensures "relationships" !in bindings ==> r == Ok(Null)
    {
      assert "relationships" in KnownAttrs;
      Attribute("relationships", env, lib)
    }

    /** `get_relationship(name)`. */
    function GetRelationship(name: string, env: map<string, string>, lib: Lib): (r: Result<Value, Error>)
      ensures Relationships(env, lib).Err? ==> r == Err(Relationships(env, lib).error)
      ensures Relationships(env, lib).Ok? ==> r == Relationship(Relationships(env, lib).value, name)
      ensures "relationships" !in bindings ==> r == Ok(Null)
    {
      var rels :- Relationships(env, lib);
      Relationship(rels, name)
    }

    /** `get_relationship_urls(name)`, drained. */
    function GetRelationshipUrls(name: string, env: map<string, string>, lib: Lib): (r: Stream<string>)
      ensures Relationships(env, lib).Err? ==> r == Stream([], Some(Relationships(env, lib).error))
      ensures Relationships(env, lib).Ok? ==> r == RelationshipUrls(Relationships(env, lib).value, name, lib)
      ensures "relationships" !in bindings ==> r == Stream([], None)
    {
      match Relationships(env, lib)
      case Err(e) => Stream([], Some(e))
      case Ok(rels) => RelationshipUrls(rels, name, lib)
    }

    /** `get_service(service)`, drained: the nested loops over the
        relationship lists and the records in each. */
    method GetService(service: string, env: map<string, string>, lib: Lib) returns (items: seq<Value>, error: Option<Error>)
      ensures Relationships(env, lib).Err? ==> items == [] && error == Some(Relationships(env, lib).error)
      ensures Relationships(env, lib).Ok? ==> Stream(items, error) == ServiceStream(Relationships(env, lib).value, service)
    {
      items, error := [], None;
      var rels := Relationships(env, lib);
      if rels.Err? {
        error := Some(rels.error);
        return;
      }
      var r := rels.value;
      if !Truthy(r) {
        return;
      }
      if !r.Obj? {
        error := Some(AttributeError("values"));
        return;
      }
      var values := DictValues(r.entries);
      var i := 0;
      while i < |values|
        invariant 0 <= i <= |values|
        invariant ServicesIn(values[..i], service) == Stream(items, None)
      {
        assert values[..i + 1][..i] == values[..i];
        var members := Iterate(values[i]);
        if members.Err? {
          error := Some(members.error);
          ServicesStop(values, service, i + 1);
          return;
        }
        var found, failure := MatchingServices(members.value, service);
        items := items + found;
        if failure.Some? {
          error := failure;
          ServicesStop(values, service, i + 1);
          return;
        }
        i := i + 1;
      }
      assert values[..i] == values;
    }

    /** `get_service_urls(service)`, drained: the URLs of the records
        `get_service` yields, in the same order. */
    method GetServiceUrls(service: string, env: map<string, string>, lib: Lib) returns (urls: seq<string>, error: Option<Error>)
      ensures Relationships(env, lib).Err? ==> urls == [] && error == Some(Relationships(env, lib).error)
      ensures Relationships(env, lib).Ok? ==>
        var s := ServiceStream(Relationships(env, lib).value, service);
        Stream(urls, error) == UrlsOf(s.items, s.error, lib)
    {
      var items, failure := GetService(service, env, lib);
      var s := UrlsOf(items, failure, lib);
      urls, error := s.items, s.error;
    }
  }
}
