/** The URL builder: `make_netloc` and `make_url`, which turn one
    relationship record (an `attrdict`) into a connection URL. */
module Urls {
  import opened Wrappers
  import opened Values
  import opened AttrDicts
  import opened Uris
  import Text

  /** `data.get(k)`: `None` for a missing key. */
  function Field(d: Entries, k: string): Value {
    Get(d, k, Null)
  }

  /** `data.get(k)` is `None` for a missing key and otherwise a value stored
      under `k`. */
  lemma FieldValue(d: Entries, k: string)
    ensures k !in Keys(d) ==> Field(d, k) == Null
    ensures k in Keys(d) ==> (k, Field(d, k)) in d
  {
  }

  /** `data.get('hostname') or data.get('host')`: `hostname` wins when it is
      truthy. */
  function HostOf(d: Entries): (h: Value)
    ensures Truthy(h) <==> Truthy(Field(d, "hostname")) || Truthy(Field(d, "host"))
    ensures Truthy(Field(d, "hostname")) ==> h == Field(d, "hostname")
    ensures !Truthy(Field(d, "hostname")) ==> h == Field(d, "host")
  {
    Or(Field(d, "hostname"), Field(d, "host"))
  }

  const MissingHost: string := "requires at least one of netloc, hostname, or host"

  /** `make_netloc` as written. A truthy `netloc` comes back unchanged
      (`Some`); otherwise a record without a truthy host raises
      `ValueError`, and a record with one reaches the end of the function,
      which assembles the netloc string but never returns it: `None`. */
  function MakeNetloc(data: Value): (r: Result<Option<Value>, Error>)
    ensures !data.Obj? ==> r == Err(AttributeError("get"))
    ensures data.Obj? && Truthy(Field(data.entries, "netloc")) ==>
      r == Ok(Some(Field(data.entries, "netloc")))
    ensures data.Obj? && !Truthy(Field(data.entries, "netloc")) ==>
      r == if Truthy(Field(data.entries, "hostname")) || Truthy(Field(data.entries, "host"))
           then Ok(None) else Err(ValueError(MissingHost))
  {
    if !data.Obj? then Err(AttributeError("get"))
    else
      var netloc := Field(data.entries, "netloc");
      if Truthy(netloc) then Ok(Some(netloc))
      else if !Truthy(HostOf(data.entries)) then Err(ValueError(MissingHost))
      else Ok(None)
  }

  /** Lines 70-71: with a truthy password, the username becomes
      `username:password`. */
  function JoinedUser(user: Value, password: Value, lib: Lib): Value {
    if Truthy(user) && Truthy(password) then Str(Show(user, lib) + ":" + Show(password, lib)) else user
  }

  /** Joining the password never changes whether there is a user part, and
      without a truthy password the user is passed on as it is. */
  lemma JoinedUserKeepsUser(user: Value, password: Value, lib: Lib)
    ensures Truthy(JoinedUser(user, password, lib)) <==> Truthy(user)
    ensures !Truthy(password) ==> JoinedUser(user, password, lib) == user
  {
  }

  /** The format call of lines 73-79. */
  function FormatNetloc(user: Value, host: Value, port: Value, lib: Lib): string {
    Show(OrEmpty(user), lib) + (if Truthy(user) then "@" else "") + Show(host, lib)
      + (if Truthy(port) then ":" else "") + Show(OrEmpty(port), lib)
  }

  /** The string `make_netloc` assembles on its last path: the netloc
      text of the record's user, password, host and port. */
  function AssembleNetloc(d: Entries, lib: Lib): (r: string)
    ensures r == NetlocText(FormattedParts(Field(d, "username"), Field(d, "password"), HostOf(d), Field(d, "port"), lib))
  {
    FormatNetlocText(Field(d, "username"), Field(d, "password"), HostOf(d), Field(d, "port"), lib);
    FormatNetloc(JoinedUser(Field(d, "username"), Field(d, "password"), lib), HostOf(d), Field(d, "port"), lib)
  }

  /** A netloc taken apart: user, password, host and port. */
  datatype NetlocParts = NetlocParts(user: Option<string>, password: Option<string>, host: string, port: Option<string>)

  function SplitHostPort(s: string): (string, Option<string>) {
    var j := Text.Find(s, ':');
    if j == |s| then (s, None) else (s[..j], Some(s[j + 1..]))
  }

  function WithHostPort(user: Option<string>, password: Option<string>, hp: string): NetlocParts {
    NetlocParts(user, password, SplitHostPort(hp).0, SplitHostPort(hp).1)
  }

  /** The credentials before `@`: the password follows the first `:`. */
  function ParseUserInfo(info: string, hp: string): NetlocParts {
    var j := Text.Find(info, ':');
    if j == |info| then WithHostPort(Some(info), None, hp)
    else WithHostPort(Some(info[..j]), Some(info[j + 1..]), hp)
  }

  /** Reads a netloc back: credentials up to the first `@`, the password
      after the first `:` in them, the port after the first `:` of the rest. */
  function ParseNetloc(s: string): NetlocParts {
    var i := Text.Find(s, '@');
    if i == |s| then WithHostPort(None, None, s) else ParseUserInfo(s[..i], s[i + 1..])
  }

  predicate NoNetlocDelims(s: string) {
    '@' !in s && ':' !in s
  }

  function PortSuffix(port: Option<string>): string {
    match port
    case Some(p) => ":" + p
    case None => ""
  }

  lemma HostPortParts(h: string, port: Option<string>)
    requires NoNetlocDelims(h)
    requires port.Some? ==> '@' !in port.value
    ensures '@' !in h + PortSuffix(port)
    ensures SplitHostPort(h + PortSuffix(port)) == (h, port)
  {
    match port
    case Some(p) =>
      Text.FindAfter(h, ':', p);
      assert h + PortSuffix(port) == h + [':'] + p;
      assert (h + [':'] + p)[..|h|] == h;
      assert (h + [':'] + p)[|h| + 1..] == p;
    case None =>
      Text.FindAbsent(h, ':');
      assert h + "" == h;
  }

  function UserInfo(u: string, p: Option<string>): string {
    u + PortSuffix(p)
  }

  /** `[user[:password]@]host[:port]` from its parts. */
  function NetlocText(parts: NetlocParts): string {
    UserPart(parts) + parts.host + PortSuffix(parts.port)
  }

  lemma UserInfoParts(u: string, p: Option<string>, hp: string)
    requires NoNetlocDelims(u)
    requires p.Some? ==> NoNetlocDelims(p.value)
    ensures '@' !in UserInfo(u, p)
    ensures ParseUserInfo(UserInfo(u, p), hp) == WithHostPort(Some(u), p, hp)
  {
    HostPortParts(u, p);
  }

  lemma ParseWithUser(info: string, hp: string)
    requires '@' !in info
    ensures ParseNetloc(info + ['@'] + hp) == ParseUserInfo(info, hp)
  {
    var s := info + ['@'] + hp;
    Text.FindAfter(info, '@', hp);
    assert s[..|info|] == info;
    assert s[|info| + 1..] == hp;
  }

  /** Reading a netloc back inverts writing it, when no part holds a
      delimiter. */
  lemma ParseNetlocText(parts: NetlocParts)
    requires parts.user.None? ==> parts.password.None?
    requires parts.user.Some? ==> NoNetlocDelims(parts.user.value)
    requires parts.password.Some? ==> NoNetlocDelims(parts.password.value)
    requires NoNetlocDelims(parts.host)
    requires parts.port.Some? ==> '@' !in parts.port.value
    ensures ParseNetloc(NetlocText(parts)) == parts
  {
    var hp := parts.host + PortSuffix(parts.port);
    HostPortParts(parts.host, parts.port);
    if parts.user.None? {
      assert NetlocText(parts) == hp;
      Text.FindAbsent(hp, '@');
    } else {
      var info := UserInfo(parts.user.value, parts.password);
      UserInfoParts(parts.user.value, parts.password, hp);
      assert NetlocText(parts) == info + ['@'] + hp;
      ParseWithUser(info, hp);
    }
  }

  /** The parts of the netloc lines 70-79 format. */
  function FormattedParts(user: Value, password: Value, host: Value, port: Value, lib: Lib): NetlocParts {
    NetlocParts(
      if Truthy(user) then Some(Show(user, lib)) else None,
      if Truthy(user) && Truthy(password) then Some(Show(password, lib)) else None,
      Show(host, lib),
      if Truthy(port) then Some(Show(port, lib)) else None)
  }

  /** The text before the host: `user[:password]@` for a truthy user. */
  function UserPart(parts: NetlocParts): string {
    match parts.user
    case Some(u) => UserInfo(u, parts.password) + "@"
    case None => ""
  }

  /** `username:password` is truthy and shows as the user information. */
  lemma JoinedText(u: string, p: string, lib: Lib)
    ensures Truthy(Str(u + ":" + p))
    ensures Show(OrEmpty(Str(u + ":" + p)), lib) == UserInfo(u, Some(p))
  {
    assert (u + ":" + p)[|u|] == ':';
    assert u + ":" + p == u + (":" + p);
  }

  lemma FormattedUser(user: Value, password: Value, lib: Lib)
    ensures var j := JoinedUser(user, password, lib);
      Show(OrEmpty(j), lib) + (if Truthy(j) then "@" else "")
        == UserPart(FormattedParts(user, password, Null, Null, lib))
  {
    if Truthy(user) && Truthy(password) {
      JoinedText(Show(user, lib), Show(password, lib), lib);
    } else if Truthy(user) {
      assert UserInfo(Show(user, lib), None) == Show(user, lib) + "";
    } else {
      assert OrEmpty(user) == Str("");
    }
  }

  lemma FormattedPort(port: Value, lib: Lib)
    ensures (if Truthy(port) then ":" else "") + Show(OrEmpty(port), lib)
         == PortSuffix(FormattedParts(Null, Null, Null, port, lib).port)
  {
  }

  lemma FormatNetlocText(user: Value, password: Value, host: Value, port: Value, lib: Lib)
    ensures FormatNetloc(JoinedUser(user, password, lib), host, port, lib)
         == NetlocText(FormattedParts(user, password, host, port, lib))
  {
    var parts := FormattedParts(user, password, host, port, lib);
    var j := JoinedUser(user, password, lib);
    var pre := Show(OrEmpty(j), lib) + (if Truthy(j) then "@" else "");
    var tail := (if Truthy(port) then ":" else "") + Show(OrEmpty(port), lib);
    FormattedUser(user, password, lib);
    FormattedPort(port, lib);
    assert pre == UserPart(parts);
    assert tail == PortSuffix(parts.port);
    assert FormatNetloc(j, host, port, lib) == (pre + Show(host, lib)) + tail;
    assert NetlocText(parts) == (UserPart(parts) + Show(host, lib)) + PortSuffix(parts.port);
  }

  /** The assembled netloc has the documented shape: reading it back gives
      the username exactly when it is truthy, the password exactly when both
      it and the username are truthy, the host, and the port exactly when it
      is truthy. */
  lemma NetlocRoundTrip(d: Entries, lib: Lib)
    requires var u := Field(d, "username"); Truthy(u) ==> NoNetlocDelims(Show(u, lib))
    requires var p := Field(d, "password"); Truthy(p) ==> NoNetlocDelims(Show(p, lib))
    requires NoNetlocDelims(Show(HostOf(d), lib))
    requires var port := Field(d, "port"); Truthy(port) ==> '@' !in Show(port, lib)
    ensures ParseNetloc(AssembleNetloc(d, lib)) == NetlocParts(
      if Truthy(Field(d, "username")) then Some(Show(Field(d, "username"), lib)) else None,
      if Truthy(Field(d, "username")) && Truthy(Field(d, "password"))
      then Some(Show(Field(d, "password"), lib)) else None,
      Show(HostOf(d), lib),
      if Truthy(Field(d, "port")) then Some(Show(Field(d, "port"), lib)) else None)
  {
    var u, p, port := Field(d, "username"), Field(d, "password"), Field(d, "port");
    FormatNetlocText(u, p, HostOf(d), port, lib);
    ParseNetlocText(FormattedParts(u, p, HostOf(d), port, lib));
  }

  /** `make_netloc` as its docstring describes it: the assembled netloc is
      returned. Errors are those of MakeNetloc. */
  function MakeNetlocIntended(data: Value, lib: Lib): (r: Result<Option<Value>, Error>)
    ensures r.Err? <==> MakeNetloc(data).Err?
    ensures r.Err? ==> r == MakeNetloc(data)
    ensures r.Ok? ==> r.value.Some?
    ensures r.Ok? && !Truthy(Field(data.entries, "netloc")) ==>
      r.value.value == Str(AssembleNetloc(data.entries, lib))
  {
    match MakeNetloc(data)
    case Ok(None) => Ok(Some(Str(AssembleNetloc(data.entries, lib))))
    case other => other
  }

  /** `urlencode(query)`: a mapping becomes `k=v` pairs joined by `&`, each
      side passed through `str()` and `quote_plus`; an empty string or list
      encodes to `''`; anything else raises `TypeError`. */
  function UrlEncode(query: Value, lib: Lib): (r: Result<string, Error>)
    ensures query == Obj([]) ==> r == Ok("")
    ensures r.Ok? <==> query.Obj? || query == Str("") || query == Arr([])
  {
    match query
    case Obj(es) => Ok(Text.Join(EncodedPairs(es, lib), "&"))
    case Str(s) => if s == "" then Ok("") else Err(TypeError)
    case Arr(items) => if items == [] then Ok("") else Err(TypeError)
    case _ => Err(TypeError)
  }

  function EncodedPairs(es: Entries, lib: Lib): (r: seq<string>)
    ensures |r| == |es|
  {
    seq(|es|, i requires 0 <= i < |es| => lib.quotePlus(es[i].0) + "=" + lib.quotePlus(Show(es[i].1, lib)))
  }

  /** Splitting an encoded mapping at `&` gives one `k=v` piece per entry,
      in the mapping's order, when the quoting leaves no `&` behind. */
  lemma UrlEncodeSplits(es: Entries, lib: Lib)
    requires es != []
    requires forall i :: 0 <= i < |es| ==> '&' !in lib.quotePlus(es[i].0) && '&' !in lib.quotePlus(Show(es[i].1, lib))
    ensures UrlEncode(Obj(es), lib).Ok?
    ensures var parts := Text.Split(UrlEncode(Obj(es), lib).value, '&');
            |parts| == |es| &&
            forall i :: 0 <= i < |es| ==>
              parts[i] == lib.quotePlus(es[i].0) + "=" + lib.quotePlus(Show(es[i].1, lib))
  {
    var ps := EncodedPairs(es, lib);
    forall i | 0 <= i < |ps| ensures '&' !in ps[i] {
      var k, v := lib.quotePlus(es[i].0), lib.quotePlus(Show(es[i].1, lib));
      assert ps[i] == k + "=" + v;
    }
    Text.SplitJoin(ps, '&');
  }

  /** The five values handed to `urlunsplit`, in its order. */
  datatype UrlComponents = UrlComponents(scheme: Value, netloc: Value, path: Value, query: Value, fragment: Value)

  /** The components as `make_url` hands them over, once `s or ''` has
      run: each is a truthy value or the empty string. */
  predicate OrEmptied(c: UrlComponents) {
    && (c.scheme.Str? || Truthy(c.scheme)) && (c.netloc.Str? || Truthy(c.netloc))
    && (c.path.Str? || Truthy(c.path)) && (c.query.Str? || Truthy(c.query))
    && (c.fragment.Str? || Truthy(c.fragment))
  }

  predicate AllStrings(c: UrlComponents) {
    c.scheme.Str? && c.netloc.Str? && c.path.Str? && c.query.Str? && c.fragment.Str?
  }

  /** Some component after the scheme is a non-empty string. */
  predicate LaterText(c: UrlComponents) {
    || (c.netloc.Str? && c.netloc.s != "") || (c.path.Str? && c.path.s != "")
    || (c.query.Str? && c.query.s != "") || (c.fragment.Str? && c.fragment.s != "")
  }

  /** A mapping with a `decode` key: reading `.decode` on the `attrdict`
      gives the stored value, which is not callable. */
  predicate HasDecode(v: Value) {
    v.Obj? && "decode" in Keys(v.entries)
  }

  /** `urlunsplit(comps)`. Its argument coercion comes first: the scheme
      decides whether strings or bytes are expected, a non-empty component
      of the other kind raises `TypeError`, and with a non-string scheme
      the components are then decoded as bytes, starting with the scheme.
      A value that is not bytes has no `decode` (`AttributeError: decode`),
      except a mapping holding a `decode` key, whose stored value cannot
      be called (`TypeError`). Strings are recomposed. */
  function Unsplit(c: UrlComponents): (r: Result<string, Error>)
    requires OrEmptied(c)
    ensures r.Ok? <==> AllStrings(c)
    ensures c.scheme.Str? && !AllStrings(c) ==> r == Err(TypeError)
    ensures !c.scheme.Str? && LaterText(c) ==> r == Err(TypeError)
    ensures !c.scheme.Str? && !LaterText(c) && HasDecode(c.scheme) ==> r == Err(TypeError)
    ensures !c.scheme.Str? && !LaterText(c) && !HasDecode(c.scheme) ==> r == Err(AttributeError("decode"))
  {
    if AllStrings(c) then
      Ok(Recompose(UriParts(c.scheme.s, c.netloc.s, c.path.s, c.query.s, c.fragment.s)))
    else if c.scheme.Str? || LaterText(c) || HasDecode(c.scheme) then Err(TypeError)
    else Err(AttributeError("decode"))
  }

  /** Parsing what `urlunsplit` returns gives back the five components, each
      in its own place, when they are recomposable. */
  lemma UnsplitParses(c: UrlComponents)
    requires OrEmptied(c) && Unsplit(c).Ok?
    requires Recomposable(UriParts(c.scheme.s, c.netloc.s, c.path.s, c.query.s, c.fragment.s))
    ensures SplitUri(Unsplit(c).value) == UriParts(c.scheme.s, c.netloc.s, c.path.s, c.query.s, c.fragment.s)
  {
    SplitRecompose(UriParts(c.scheme.s, c.netloc.s, c.path.s, c.query.s, c.fragment.s));
  }

  /** `s or ''`. */
  function OrEmpty(v: Value): Value {
    Or(v, Str(""))
  }

  /** The netloc argument `make_url` passes on: `None` when `make_netloc`
      returned nothing. */
  function NetlocValue(nl: Option<Value>): Value {
    match nl
    case Some(v) => v
    case None => Null
  }

  /** The tuple of line 94 after the `s or ''` of line 95. */
  function Components(d: Entries, nl: Option<Value>, query: string): (c: UrlComponents)
    ensures OrEmptied(c)
  {
    UrlComponents(OrEmpty(Field(d, "scheme")), OrEmpty(NetlocValue(nl)), OrEmpty(Field(d, "path")),
                  OrEmpty(Str(query)), OrEmpty(Field(d, "fragment")))
  }

  /** Lines 88-96 of `make_url` once `make_netloc` has given `netloc`: the
      record's `get` fails first, then `make_netloc`, then `urlencode`, then
      `urlunsplit`. */
  function UrlFrom(data: Value, netloc: Result<Option<Value>, Error>, lib: Lib): (r: Result<string, Error>)
    ensures !data.Obj? ==> r == Err(AttributeError("get"))
    ensures data.Obj? && netloc.Err? ==> r == Err(netloc.error)
    ensures data.Obj? && netloc.Ok? && UrlEncode(Get(data.entries, "query", Obj([])), lib).Err? ==>
      r == Err(UrlEncode(Get(data.entries, "query", Obj([])), lib).error)
    ensures data.Obj? && netloc.Ok? && UrlEncode(Get(data.entries, "query", Obj([])), lib).Ok? ==>
      r == Unsplit(Components(data.entries, netloc.value, UrlEncode(Get(data.entries, "query", Obj([])), lib).value))
  {
    if !data.Obj? then Err(AttributeError("get"))
    else
      var d := data.entries;
      var nl :- netloc;
      var query :- UrlEncode(Get(d, "query", Obj([])), lib);
      Unsplit(Components(d, nl, query))
  }

  /** `make_url` as written. It raises whatever `make_netloc` raises; it
      also raises for a query that is not a mapping and for a non-string
      component. */
  function MakeUrl(data: Value, lib: Lib): (r: Result<string, Error>)
    ensures MakeNetloc(data).Err? ==> r == Err(MakeNetloc(data).error)
    ensures data.Obj? && MakeNetloc(data).Ok? && Get(data.entries, "query", Obj([])).Obj?
            && StrOrFalsy(Field(data.entries, "scheme")) && StrOrFalsy(Field(data.entries, "path"))
            && StrOrFalsy(Field(data.entries, "fragment"))
            && (Truthy(Field(data.entries, "netloc")) ==> Field(data.entries, "netloc").Str?)
            ==> r.Ok?
  {
    MakeUrlSucceeds(data, lib);
    UrlFrom(data, MakeNetloc(data), lib)
  }

  lemma MakeUrlSucceeds(data: Value, lib: Lib)
    ensures data.Obj? && MakeNetloc(data).Ok? && Get(data.entries, "query", Obj([])).Obj?
            && StrOrFalsy(Field(data.entries, "scheme")) && StrOrFalsy(Field(data.entries, "path"))
            && StrOrFalsy(Field(data.entries, "fragment"))
            && (Truthy(Field(data.entries, "netloc")) ==> Field(data.entries, "netloc").Str?)
            ==> UrlFrom(data, MakeNetloc(data), lib).Ok?
  {
    if && data.Obj? && MakeNetloc(data).Ok? && Get(data.entries, "query", Obj([])).Obj?
       && StrOrFalsy(Field(data.entries, "scheme")) && StrOrFalsy(Field(data.entries, "path"))
       && StrOrFalsy(Field(data.entries, "fragment"))
       && (Truthy(Field(data.entries, "netloc")) ==> Field(data.entries, "netloc").Str?)
    {
      var q := UrlEncode(Get(data.entries, "query", Obj([])), lib);
      assert q.Ok?;
      var c := Components(data.entries, MakeNetloc(data).value, q.value);
      assert AllStrings(c);
    }
  }

  /** `make_url` with the netloc `make_netloc` was meant to return. It
      fails exactly when the code as written fails, and with the same
      exception, except for a scheme that is not a string and has no
      `decode` key: the assembled netloc is then a non-empty string, which
      `urlunsplit` rejects before it tries to decode the scheme. */
  function MakeUrlIntended(data: Value, lib: Lib): (r: Result<string, Error>)
    ensures r.Err? <==> MakeUrl(data, lib).Err?
    ensures r.Err? && r != MakeUrl(data, lib) ==>
      && data.Obj? && !Field(data.entries, "scheme").Str? && !HasDecode(Field(data.entries, "scheme"))
      && r == Err(TypeError) && MakeUrl(data, lib) == Err(AttributeError("decode"))
  {
    IntendedUrlErrors(data, lib);
    UrlFrom(data, MakeNetlocIntended(data, lib), lib)
  }

  /** A netloc that is a string once `or ''` has run makes `make_url` fail
      exactly when no netloc does; the exception differs only when the
      scheme is not a string and has no `decode` key. */
  lemma UrlFromSameErrors(data: Value, a: Option<Value>, lib: Lib)
    requires OrEmpty(NetlocValue(a)).Str?
    ensures UrlFrom(data, Ok(a), lib).Err? <==> UrlFrom(data, Ok(None), lib).Err?
    ensures UrlFrom(data, Ok(a), lib).Err? && UrlFrom(data, Ok(a), lib) != UrlFrom(data, Ok(None), lib) ==>
      && data.Obj? && !Field(data.entries, "scheme").Str? && !HasDecode(Field(data.entries, "scheme"))
      && UrlFrom(data, Ok(a), lib) == Err(TypeError) && UrlFrom(data, Ok(None), lib) == Err(AttributeError("decode"))
  {
  }

  lemma IntendedUrlErrors(data: Value, lib: Lib)
    ensures UrlFrom(data, MakeNetlocIntended(data, lib), lib).Err? <==> MakeUrl(data, lib).Err?
    ensures UrlFrom(data, MakeNetlocIntended(data, lib), lib).Err? &&
            UrlFrom(data, MakeNetlocIntended(data, lib), lib) != MakeUrl(data, lib) ==>
      && data.Obj? && !Field(data.entries, "scheme").Str? && !HasDecode(Field(data.entries, "scheme"))
      && UrlFrom(data, MakeNetlocIntended(data, lib), lib) == Err(TypeError)
      && MakeUrl(data, lib) == Err(AttributeError("decode"))
  {
    match MakeNetloc(data)
    case Ok(None) =>
      var a := AssembleNetloc(data.entries, lib);
      assert OrEmpty(Str(a)).Str?;
      UrlFromSameErrors(data, Some(Str(a)), lib);
    case _ =>
  }

  predicate StrOrFalsy(v: Value) {
    v.Str? || !Truthy(v)
  }

  /** The text a component contributes once `or ''` has run and
      `urlunsplit` has accepted it. */
  function ComponentText(v: Value): string {
    if Truthy(v) && v.Str? then v.s else ""
  }

  /** The parts of the URL `make_url` builds from record `d`, given the
      netloc text and the encoded query. */
  function UrlParts(d: Entries, netloc: string, query: string): UriParts {
    UriParts(ComponentText(Field(d, "scheme")), netloc, ComponentText(Field(d, "path")),
             query, ComponentText(Field(d, "fragment")))
  }

  /** A URL `make_url` builds is the recomposition of its parts. */
  lemma UrlFromParts(data: Value, nl: Option<Value>, lib: Lib, netloc: string)
    requires data.Obj? && UrlFrom(data, Ok(nl), lib).Ok?
    requires OrEmpty(NetlocValue(nl)) == Str(netloc)
    ensures UrlEncode(Get(data.entries, "query", Obj([])), lib).Ok?
    ensures UrlFrom(data, Ok(nl), lib).value
         == Recompose(UrlParts(data.entries, netloc, UrlEncode(Get(data.entries, "query", Obj([])), lib).value))
  {
    var d := data.entries;
    var q := UrlEncode(Get(d, "query", Obj([])), lib).value;
    var c := UrlComponents(OrEmpty(Field(d, "scheme")), OrEmpty(NetlocValue(nl)), OrEmpty(Field(d, "path")),
                           OrEmpty(Str(q)), OrEmpty(Field(d, "fragment")));
    assert UrlFrom(data, Ok(nl), lib) == Unsplit(c);
    OrEmptyText(Field(d, "scheme"));
    OrEmptyText(Field(d, "path"));
    OrEmptyText(Field(d, "fragment"));
    OrEmptyText(Str(q));
  }

  /** A component that is a string once `or ''` has run contributes its
      text. */
  lemma OrEmptyText(v: Value)
    requires OrEmpty(v).Str?
    ensures OrEmpty(v).s == ComponentText(v)
  {
  }

  /** The defect of `make_netloc`: without a truthy `netloc`, the URL
      `make_url` returns has no authority at all, whatever host, port and
      credentials the record names. */
  lemma MakeUrlDropsAuthority(data: Value, lib: Lib)
    requires data.Obj? && !Truthy(Field(data.entries, "netloc"))
    requires MakeUrl(data, lib).Ok?
    ensures MakeUrl(data, lib).value
         == Recompose(UrlParts(data.entries, "", UrlEncode(Get(data.entries, "query", Obj([])), lib).value))
    ensures Recomposable(UrlParts(data.entries, "", UrlEncode(Get(data.entries, "query", Obj([])), lib).value)) ==>
      && SplitUri(MakeUrl(data, lib).value)
         == UrlParts(data.entries, "", UrlEncode(Get(data.entries, "query", Obj([])), lib).value)
      && SplitUri(MakeUrl(data, lib).value).authority == ""
  {
    UrlFromParts(data, None, lib, "");
    var q := UrlEncode(Get(data.entries, "query", Obj([])), lib).value;
    assert MakeUrl(data, lib).value == Recompose(UrlParts(data.entries, "", q));
    if Recomposable(UrlParts(data.entries, "", q)) {
      SplitRecompose(UrlParts(data.entries, "", q));
    }
  }

  /** With the intended netloc, parsing the URL gives back the scheme, the
      assembled netloc as authority, the path, the encoded query and the
      fragment, in their places. */
  lemma MakeUrlIntendedParts(data: Value, lib: Lib)
    requires data.Obj? && !Truthy(Field(data.entries, "netloc"))
    requires MakeUrlIntended(data, lib).Ok?
    requires Recomposable(UrlParts(data.entries, AssembleNetloc(data.entries, lib),
                                   UrlEncode(Get(data.entries, "query", Obj([])), lib).value))
    ensures SplitUri(MakeUrlIntended(data, lib).value)
         == UrlParts(data.entries, AssembleNetloc(data.entries, lib),
                     UrlEncode(Get(data.entries, "query", Obj([])), lib).value)
  {
    var a := AssembleNetloc(data.entries, lib);
    assert MakeNetlocIntended(data, lib) == Ok(Some(Str(a)));
    UrlFromParts(data, Some(Str(a)), lib, a);
    SplitRecompose(UrlParts(data.entries, a, UrlEncode(Get(data.entries, "query", Obj([])), lib).value));
  }

  /** The first database record of the two-record example. */
  const Db1: Value := Obj([("scheme", Str("postgres")), ("hostname", Str("db1")), ("port", Int(5432))])

  /** The second one, without a port. */
  const Db2: Value := Obj([("scheme", Str("postgres")), ("hostname", Str("db2"))])

  lemma Db1Named()
    ensures NamedFields(Db1, "postgres", "db1", Int(5432))
  {
  }

  lemma Db1Unnamed()
    ensures UnnamedFields(Db1)
  {
  }

  lemma Db2Named()
    ensures NamedFields(Db2, "postgres", "db2", Null)
  {
  }

  lemma Db2Unnamed()
    ensures UnnamedFields(Db2)
  {
  }

  /** What `make_url` makes of a record whose scheme is `scheme`, that has
      no path, query, fragment or netloc, once the netloc is `nl`. */
  lemma UrlOfSchemeOnly(data: Value, nl: Option<Value>, lib: Lib, scheme: string, authority: string)
    requires data.Obj? && scheme != ""
    requires Field(data.entries, "scheme") == Str(scheme)
    requires Field(data.entries, "path") == Null && Field(data.entries, "fragment") == Null
    requires Get(data.entries, "query", Obj([])) == Obj([])
    requires OrEmpty(NetlocValue(nl)) == Str(authority)
    ensures UrlFrom(data, Ok(nl), lib) == Ok(scheme + ":" + (if authority != "" then "//" + authority else ""))
  {
    var c := UrlComponents(Str(scheme), Str(authority), Str(""), Str(""), Str(""));
    assert UrlEncode(Obj([]), lib) == Ok("");
    assert OrEmpty(Str("")) == Str("");
    assert OrEmpty(Field(data.entries, "scheme")) == Str(scheme);
    assert UrlFrom(data, Ok(nl), lib) == Unsplit(c);
    var p := UriParts(scheme, authority, "", "", "");
    var a := if authority != "" then "//" + authority else "";
    assert AfterAuthority(p) == "";
    assert AfterScheme(p) == a;
    assert Unsplit(c) == Ok(Recompose(p));
  }

  /** A record with a scheme, a host and an optional port and nothing else
      -- the shape of both example records. */
  predicate SchemeHostRecord(data: Value, scheme: string, host: string, port: Value) {
    && scheme != "" && host != "" && ':' !in host && '@' !in host
    && (port == Null || (port.Int? && port.i > 0))
    && NamedFields(data, scheme, host, port)
    && UnnamedFields(data)
  }

  /** The fields such a record names. */
  predicate NamedFields(data: Value, scheme: string, host: string, port: Value) {
    && data.Obj?
    && Field(data.entries, "scheme") == Str(scheme)
    && Field(data.entries, "hostname") == Str(host)
    && Field(data.entries, "port") == port
  }

  /** The fields such a record leaves out. */
  predicate UnnamedFields(data: Value)
    requires data.Obj?
  {
    && Field(data.entries, "netloc") == Null
    && Field(data.entries, "username") == Null && Field(data.entries, "password") == Null
    && Field(data.entries, "path") == Null && Field(data.entries, "fragment") == Null
    && Get(data.entries, "query", Obj([])) == Obj([])
  }

  /** The schemes for which Python's `urlunsplit` writes `//` even when the
      netloc is empty (`urllib.parse.uses_netloc`). */
  const UsesNetloc: set<string> := {
    "", "ftp", "http", "gopher", "nntp", "telnet", "imap", "wais", "file", "mms", "https", "shttp",
    "snews", "prospero", "rtsp", "rtsps", "rtspu", "rsync", "svn", "svn+ssh", "sftp", "nfs", "git",
    "git+ssh", "ws", "wss", "itms-services"}

  /** As written, such a record yields `scheme:`, with no host, for a
      scheme outside `uses_netloc`. */
  lemma SchemeHostUrlAsWritten(data: Value, scheme: string, host: string, port: Value, lib: Lib)
    requires SchemeHostRecord(data, scheme, host, port) && scheme !in UsesNetloc
    ensures MakeUrl(data, lib) == Ok(scheme + ":")
  {
    assert MakeNetloc(data) == Ok(None);
    UrlOfSchemeOnly(data, None, lib, scheme, "");
    assert scheme + ":" + "" == scheme + ":";
  }

  /** `:port` for an integer port, nothing for `None`. */
  function PortText(port: Value): string {
    if port.Int? then ":" + Decimal(port.i) else ""
  }

  /** The netloc text of a bare host and an optional port. */
  lemma HostNetlocText(host: string, port: Value, lib: Lib)
    requires port == Null || (port.Int? && port.i > 0)
    ensures NetlocText(FormattedParts(Null, Null, Str(host), port, lib)) == host + PortText(port)
  {
    var parts := FormattedParts(Null, Null, Str(host), port, lib);
    assert UserPart(parts) == "";
    assert PortSuffix(parts.port) == PortText(port);
    assert NetlocText(parts) == "" + host + PortText(port);
  }

  lemma SchemeHostNetloc(data: Value, host: string, port: Value, lib: Lib)
    requires data.Obj? && Field(data.entries, "hostname") == Str(host) && host != ""
    requires port == Null || (port.Int? && port.i > 0)
    requires Field(data.entries, "port") == port
    requires Field(data.entries, "username") == Null && Field(data.entries, "password") == Null
    ensures AssembleNetloc(data.entries, lib) == host + PortText(port)
  {
    assert HostOf(data.entries) == Str(host);
    HostNetlocText(host, port, lib);
  }

  lemma Slashes(scheme: string, a: string)
    ensures scheme + ":" + ("//" + a) == scheme + "://" + a
  {
    assert scheme + ":" + ("//" + a) == (scheme + ":") + "//" + a;
  }

  /** As intended, such a record yields `scheme://host[:port]`. */
  lemma SchemeHostUrlIntended(data: Value, scheme: string, host: string, port: Value, lib: Lib)
    requires SchemeHostRecord(data, scheme, host, port)
    ensures MakeUrlIntended(data, lib) == Ok(scheme + "://" + (host + PortText(port)))
  {
    assert MakeNetloc(data) == Ok(None);
    var a := host + PortText(port);
    SchemeHostNetloc(data, host, port, lib);
    assert MakeNetlocIntended(data, lib) == Ok(Some(Str(a)));
    UrlOfSchemeOnly(data, Some(Str(a)), lib, scheme, a);
    Slashes(scheme, a);
  }

  /** The two example records have that shape. */
  lemma Db1Record()
    ensures SchemeHostRecord(Db1, "postgres", "db1", Int(5432))
  {
    Db1Named();
    Db1Unnamed();
  }

  lemma Db2Record()
    ensures SchemeHostRecord(Db2, "postgres", "db2", Null)
  {
    Db2Named();
    Db2Unnamed();
  }

  lemma Decimal5432()
    ensures Decimal(5432) == "5432"
  {
    assert NatDecimal(5) == "5";
    assert NatDecimal(54) == "5" + "4";
    assert NatDecimal(543) == "54" + "3";
    assert NatDecimal(5432) == "543" + "2";
  }

  lemma PostgresNoNetloc()
    ensures "postgres" !in UsesNetloc
  {
  }

  /** As written, a `postgres` record of that shape gives `postgres:`. */
  lemma PostgresUrlAsWritten(data: Value, host: string, port: Value, lib: Lib)
    requires SchemeHostRecord(data, "postgres", host, port)
    ensures MakeUrl(data, lib) == Ok("postgres:")
  {
    PostgresNoNetloc();
    SchemeHostUrlAsWritten(data, "postgres", host, port, lib);
    assert "postgres" + ":" == "postgres:";
  }

  /** As written, the first example record gives the URL `postgres:`,
      without host or port. */
  lemma Db1UrlAsWritten(lib: Lib)
    ensures MakeUrl(Db1, lib) == Ok("postgres:")
  {
    Db1Record();
    PostgresUrlAsWritten(Db1, "db1", Int(5432), lib);
  }

  /** So does the second. */
  lemma Db2UrlAsWritten(lib: Lib)
    ensures MakeUrl(Db2, lib) == Ok("postgres:")
  {
    Db2Record();
    PostgresUrlAsWritten(Db2, "db2", Null, lib);
  }

  /** As intended, the first gives `postgres://db1:5432`. */
  lemma Db1UrlIntended(lib: Lib)
    ensures MakeUrlIntended(Db1, lib) == Ok("postgres://db1:5432")
  {
    Db1Record();
    SchemeHostUrlIntended(Db1, "postgres", "db1", Int(5432), lib);
    Decimal5432();
    assert PortText(Int(5432)) == ":" + "5432";
    Db1Text();
  }

  lemma Db1Text()
    ensures "postgres" + "://" + ("db1" + (":" + "5432")) == "postgres://db1:5432"
  {
  }

  /** And the second `postgres://db2`. */
  lemma Db2UrlIntended(lib: Lib)
    ensures MakeUrlIntended(Db2, lib) == Ok("postgres://db2")
  {
    Db2Record();
    SchemeHostUrlIntended(Db2, "postgres", "db2", Null, lib);
    assert PortText(Null) == "";
    Db2Text();
  }

  lemma Db2Text()
    ensures "postgres" + "://" + ("db2" + "") == "postgres://db2"
  {
  }

  /** A record whose scheme is `True`. */
  const BoolScheme: Value := Obj([("scheme", Bool(true)), ("hostname", Str("h"))])

  /** A record whose scheme and netloc are numbers. */
  const IntScheme: Value := Obj([("scheme", Int(1)), ("netloc", Int(2))])

  lemma BoolSchemeFields(lib: Lib)
    ensures Field(BoolScheme.entries, "scheme") == Bool(true) && Field(BoolScheme.entries, "hostname") == Str("h")
    ensures Field(BoolScheme.entries, "netloc") == Null && Field(BoolScheme.entries, "port") == Null
    ensures Field(BoolScheme.entries, "username") == Null && Field(BoolScheme.entries, "password") == Null
    ensures Field(BoolScheme.entries, "path") == Null && Field(BoolScheme.entries, "fragment") == Null
    ensures Get(BoolScheme.entries, "query", Obj([])) == Obj([]) && UrlEncode(Obj([]), lib) == Ok("")
  {
  }

  /** As written, `make_url({'scheme': True, 'hostname': 'h'})` hands
      `urlunsplit` a scheme that is not a string and nothing else but empty
      strings, so it tries to decode the scheme as bytes. */
  lemma BoolSchemeUrlAsWritten(lib: Lib)
    ensures MakeUrl(BoolScheme, lib) == Err(AttributeError("decode"))
  {
    BoolSchemeFields(lib);
    assert MakeNetloc(BoolScheme) == Ok(None);
    assert !LaterText(Components(BoolScheme.entries, None, ""));
  }

  /** With the assembled netloc `h`, the check that all components are of
      one kind comes first. */
  lemma BoolSchemeUrlIntended(lib: Lib)
    ensures MakeUrlIntended(BoolScheme, lib) == Err(TypeError)
  {
    BoolSchemeFields(lib);
    SchemeHostNetloc(BoolScheme, "h", Null, lib);
    assert MakeNetlocIntended(BoolScheme, lib) == Ok(Some(Str("h" + "")));
    assert LaterText(Components(BoolScheme.entries, Some(Str("h" + "")), ""));
  }

  /** `make_url({'scheme': 1, 'netloc': 2})`: the netloc is passed on as it
      is, and decoding the scheme as bytes fails. */
  lemma IntSchemeUrl(lib: Lib)
    ensures MakeUrl(IntScheme, lib) == Err(AttributeError("decode"))
  {
    var d := IntScheme.entries;
    assert Field(d, "scheme") == Int(1) && Field(d, "netloc") == Int(2);
    assert Field(d, "path") == Null && Field(d, "fragment") == Null;
    assert Get(d, "query", Obj([])) == Obj([]) && UrlEncode(Obj([]), lib) == Ok("");
    assert MakeNetloc(IntScheme) == Ok(Some(Int(2)));
    assert !LaterText(Components(d, Some(Int(2)), ""));
  }

  /** A record whose scheme is a mapping with a `decode` key. */
  const DecodeScheme: Value := Obj([("scheme", Obj([("decode", Int(1))])), ("netloc", Int(2))])

  /** `make_url({'scheme': {'decode': 1}, 'netloc': 2})`: `.decode` on the
      scheme reads the stored `1`, and calling it raises `TypeError`, in
      the code as written and as intended alike. */
  lemma DecodeSchemeUrl(lib: Lib)
    ensures MakeUrl(DecodeScheme, lib) == Err(TypeError)
    ensures MakeUrlIntended(DecodeScheme, lib) == Err(TypeError)
  {
    DecodeSchemeFields(lib);
    assert MakeNetloc(DecodeScheme) == Ok(Some(Int(2)));
    assert !LaterText(Components(DecodeScheme.entries, Some(Int(2)), ""));
  }

  lemma DecodeSchemeFields(lib: Lib)
    ensures Field(DecodeScheme.entries, "scheme") == Obj([("decode", Int(1))])
    ensures Field(DecodeScheme.entries, "netloc") == Int(2)
    ensures Field(DecodeScheme.entries, "path") == Null && Field(DecodeScheme.entries, "fragment") == Null
    ensures Get(DecodeScheme.entries, "query", Obj([])) == Obj([]) && UrlEncode(Obj([]), lib) == Ok("")
    ensures HasDecode(Obj([("decode", Int(1))]))
  {
    assert Keys([("decode", Int(1))])[0] == "decode";
  }
}
