# Platform.sh environment resolution, modelled in Dafny

This project models `dude/platform.py`. That module turns the Platform.sh
hosting environment into a configuration object. It covers these parts:

- **Attribute names.** `make_name` drops every `PLATFORM_` from an
  environment key and lower-cases what is left.
- **URLs.** `make_netloc` and `make_url` build `[user[:password]@]host[:port]`
  and a full URL from a loosely keyed record, using Python truthiness
  throughout.
- **`attrdict`.** It is the mapping every decoded JSON object becomes. Its
  attribute reads are key reads, and a missing key raises `AttributeError`.
- **The environment object.**
  - Each attribute is bound to a descriptor. The descriptor re-reads its
    variable on every access, and optionally decodes the variable as base64
    JSON.
  - `__getattr__` answers `None` only for the known names.
  - The object has a `repr` and a `declare -x` shell serialisation.
  - It offers relationship lookup, service lookup and the URL streams
    built from them.
- **`build_environment`.** It chooses which keys are kept, which of them are
  decoded as JSON, and the attribute each key is bound to.

## How it is organised

One module per file:

| module | file | models |
|---|---|---|
| `Wrappers` | wrappers.dfy | the `Option` and `Result` types |
| `Values` | values.dfy | JSON-like values, Python's `or` and `str()` of a number |
| `AttrDicts` | attrdicts.dfy | `attrdict` and dict insertion; the `object_pairs_hook` |
| `Names` | names.dfy | `make_name`; the two name lists |
| `Shell` | shell.dfy | `shlex.quote`, and how a POSIX shell reads the quoted word back |
| `Text` | text.dfy | join, find and split |
| `Uris` | uris.dfy | recomposition and parsing per section 5.3 of RFC 3986 (`urlunsplit`) |
| `Urls` | urls.dfy | `make_netloc`, `make_url`, `urlencode` |
| `Lookups` | lookups.dfy | `get_relationship` and `get_service` over the decoded relationships, as streams |
| `Platform` | platform.dfy | `decode_json`, `EnvDescriptor.__get__`, the `Environment` class |
| `Build` | build.dfy | `build_environment` |

Design choices:

- **Exceptions.** A Python exception is an `Err(e)` result.
- **Generators and `map` objects.** They are modelled as drained streams:
  the items yielded, in order, then the exception that ended the
  iteration, if any.
- **`get_service`.** It is a `method`, with the source's two nested loops.
  Its contract ties it to the stream function `ServiceStream`.
- **`Environment`.** It is a class with two immutable fields:
  - `keys` stands for `_keys`;
  - `bindings` stands for the descriptors of the synthesized class, by
    attribute name.
- **The process environment.** Every operation that reads it takes it as a
  parameter `env: map<string, string>`.
- **Library routines the module calls but does not define.** These are the
  fields of a `Lib` value:
  - base64 decoding and encoding;
  - `json.loads` and `json.dumps`;
  - `quote_plus`;
  - `str()` of a list or mapping.

## Model

| member | source | states |
|---|---|---|
| Values.FalsyValues | dude/platform.py:64 | Python truthiness: the false values are exactly `None`, `False`, `0`, `''` and the empty list and mapping |
| Values.Or | dude/platform.py:64 | `a or b` is `a` when `a` is truthy and `b` otherwise |
| Values.OrTruthy | dude/platform.py:64 | `a or b` is truthy exactly when one of `a` and `b` is |
| Values.Show | dude/platform.py:73-79 | `str()` of a string is the string itself; `str()` of an integer reads back as that integer |
| Values.DecimalRoundTrip | dude/platform.py:78 | the decimal text `str()` gives an integer port reads back as that integer |
| AttrDicts.Index | dude/platform.py:107 | `d[k]` succeeds exactly when `k` is a key, and then gives a value stored under `k`; it raises `KeyError(k)` otherwise |
| AttrDicts.Get | dude/platform.py:58 | `d.get(k, default)` gives the default for an absent key, and the stored value otherwise |
| AttrDicts.GetAttr | dude/platform.py:104-109 | an attribute read succeeds exactly when the key read does, with the same value; otherwise it raises `AttributeError(name)` |
| AttrDicts.Put | dude/platform.py:40 | after `d[k] = v` the dict grows by one entry exactly when `k` was not a key |
| AttrDicts.PutIndex | dude/platform.py:40 | after `d[k] = v` the dict holds `(k, v)`, `d[k]` reads `v`, and every other key reads as before |
| AttrDicts.PutNew | dude/platform.py:40 | a new key is appended after the existing entries |
| AttrDicts.PutKeys | dude/platform.py:40 | `d[k] = v` keeps an existing key in its place and appends a new one |
| AttrDicts.PutEntries | dude/platform.py:40 | after `d[k] = v`, every entry is `(k, v)` or an entry of the old dict |
| AttrDicts.PutDistinct | dude/platform.py:40 | insertion keeps keys distinct |
| AttrDicts.FromPairs | dude/platform.py:40 | the `attrdict` built from decoded pairs has no more entries than pairs |
| AttrDicts.FromPairsKeys | dude/platform.py:40 | that `attrdict` has exactly the keys of the pairs |
| AttrDicts.FromPairsOrder | dude/platform.py:40 | its keys come in the order of their first occurrence among the pairs |
| AttrDicts.FromPairsOfDistinct | dude/platform.py:40 | pairs with distinct keys give a dict holding exactly those pairs, in their order |
| AttrDicts.FromPairsDistinct | dude/platform.py:40 | the `attrdict` built from decoded pairs holds each key once |
| AttrDicts.FromPairsEntries | dude/platform.py:40 | every entry of that `attrdict` is one of the pairs |
| AttrDicts.FromPairsIndex | dude/platform.py:40 | reading key `k` of that `attrdict` gives the last value paired with `k`, or `KeyError(k)` when there is none |
| AttrDicts.LastValueSpec | dude/platform.py:40 | the last value paired with `k` is absent exactly when no pair has key `k`; otherwise it comes from a pair after which `k` does not recur |
| AttrDicts.Materialize | dude/platform.py:36-40 | the hook keeps the shape of a decoded value: a list stays a list whose items, in order, are its items materialised; objects stay objects with the same keys; scalars are unchanged; truthiness is kept |
| AttrDicts.MaterializeWellFormed | dude/platform.py:40 | after the hook has run, every object at every depth of a decoded value has distinct keys |
| AttrDicts.DecodedAttribute | dude/platform.py:36-40 | attribute `k` of a decoded object is the decoded value of the last pair with key `k`; for a key that is absent it raises `AttributeError(k)` |
| Names.RemoveAll | dude/platform.py:45 | `replace(pat, '')` never lengthens a string and introduces no new character |
| Names.MakeName | dude/platform.py:43-45 | an attribute name is no longer than its key and holds no upper-case letter |
| Names.MakeNameIdempotent | dude/platform.py:43-45 | applying `make_name` twice is the same as once |
| Names.MakeNameDropsPrefix | dude/platform.py:45 | a leading `PLATFORM_` does not change the name |
| Names.RemoveKeeps | dude/platform.py:45 | `replace` keeps a stretch that lacks the pattern's first character and carries on after it |
| Names.RemoveInner | dude/platform.py:45 | `replace` deletes an occurrence anywhere in the string, not only at the start |
| Names.MakeNameDropsInner | dude/platform.py:45 | a `PLATFORM_` in the middle of a key is dropped: the part before it is only lower-cased, and the part after is named on its own |
| Names.MakeNameInnerExample | dude/platform.py:45 | `MY_PLATFORM_KEY` is named `my_key` |
| Names.MakeNameBranch | dude/platform.py:43-45 | `PLATFORM_BRANCH` is named `branch` |
| Names.MakeNameInverts | dude/platform.py:43-45 | for a name made of lower-case letters other than `f`, and of underscores, `make_name("PLATFORM_" + upper(a)) == a` |
| Names.KnownAttrsInvertible | dude/platform.py:19-33 | every known attribute is the name `make_name` gives its own `PLATFORM_` variable |
| Shell.Quote | dude/platform.py:177 | the quoted word is never empty, and a non-empty string of safe characters is left as it is |
| Shell.QuoteRoundTrip | dude/platform.py:177 | a shell reads the output of `shlex.quote(s)` back as `s`, for every `s` |
| Uris.SplitRecompose | dude/platform.py:96 | parsing what `urlunsplit` recomposes gives back scheme, authority, path, query and fragment, when no component holds a delimiter that would end it early |
| Urls.FieldValue | dude/platform.py:58-64 | `data.get(k)` is `None` for a missing key and otherwise a value stored under `k` |
| Urls.HostOf | dude/platform.py:64 | `hostname` is used when truthy, otherwise `host`; the result is truthy exactly when one of them is |
| Urls.MakeNetloc | dude/platform.py:58-79 | a non-mapping raises `AttributeError('get')`; a truthy `netloc` is returned unchanged; without `hostname` or `host` it raises `ValueError` with the source's message; otherwise it returns `None` (the fall-through) |
| Urls.NetlocRoundTrip | dude/platform.py:70-79 | reading the assembled netloc back gives the username exactly when it is truthy, the password exactly when both it and the username are truthy, the host, and the port exactly when it is truthy |
| Urls.JoinedUserKeepsUser | dude/platform.py:70-71 | joining the password keeps whether there is a user part, and without a truthy password the username is passed on unchanged |
| Urls.FormatNetlocText | dude/platform.py:73-79 | the format call writes `[user[:password]@]host[:port]` from the record's parts: the user part exactly for a truthy username, the port exactly for a truthy port |
| Urls.AssembleNetloc | dude/platform.py:70-79 | the string `make_netloc` assembles is the netloc text of the record's username, password, host and port |
| Urls.MakeNetlocIntended | dude/platform.py:48-79 | `make_netloc` returning what it assembles: same errors as the code; otherwise a netloc, which is the assembled string when no truthy `netloc` was given |
| Urls.UrlEncode | dude/platform.py:91-92 | the default `{}` encodes to `''`; encoding succeeds exactly for a mapping, an empty string or an empty list |
| Urls.UrlEncodeSplits | dude/platform.py:92 | splitting an encoded mapping at `&` gives one `quote_plus(k)=quote_plus(str(v))` piece per entry, in order |
| Urls.Unsplit | dude/platform.py:95-96 | `urlunsplit` succeeds exactly when all five components are strings; with a string scheme any other component raises `TypeError`; with a scheme that is not a string, a later non-empty string raises `TypeError`; otherwise decoding the scheme as bytes raises `AttributeError`, or `TypeError` for a mapping holding a `decode` key, whose value cannot be called |
| Urls.UnsplitParses | dude/platform.py:94-96 | the five components land in the order scheme, netloc, path, query, fragment |
| Urls.Components | dude/platform.py:94-95 | after `s or ''`, every component is truthy or the empty string |
| Urls.UrlFrom | dude/platform.py:86-96 | a record that is not a mapping raises `AttributeError('get')` first, then `make_netloc`'s exception, then `urlencode`'s; otherwise the result is `urlunsplit` of the five components |
| Urls.MakeUrl | dude/platform.py:82-96 | an exception from `make_netloc` propagates unchanged; a URL is produced whenever `make_netloc` succeeds, the query is a mapping, scheme, path and fragment are strings or falsy, and a truthy `netloc` is a string |
| Urls.MakeUrlDropsAuthority | dude/platform.py:73-79 | as written, a record without a truthy `netloc` gives the recomposition of its scheme, an empty netloc, its path, encoded query and fragment; when those parts can be told apart, parsing the URL gives them back with an empty authority, whatever host, port and credentials the record names |
| Urls.SchemeHostUrlAsWritten | dude/platform.py:58-96 | as written, a record with only a scheme outside `uses_netloc`, a host and an optional port gives `scheme:` |
| Urls.PostgresUrlAsWritten | dude/platform.py:58-96 | as written, any `postgres` record with only a host and an optional port gives `postgres:` |
| Urls.Db1UrlAsWritten | dude/platform.py:73-79 | as written, `{scheme: postgres, hostname: db1, port: 5432}` gives `postgres:` |
| Urls.Db2UrlAsWritten | dude/platform.py:73-79 | as written, `{scheme: postgres, hostname: db2}` gives `postgres:` |
| Urls.BoolSchemeUrlAsWritten | dude/platform.py:86-96 | as written, `{scheme: True, hostname: h}` raises `AttributeError` when `urlunsplit` decodes the scheme |
| Urls.IntSchemeUrl | dude/platform.py:86-96 | `{scheme: 1, netloc: 2}` raises `AttributeError` when `urlunsplit` decodes the scheme |
| Urls.DecodeSchemeUrl | dude/platform.py:86-96 | `{scheme: {decode: 1}, netloc: 2}` raises `TypeError`, as written and as intended, because the stored `decode` value cannot be called |
| Urls.MakeUrlIntended | dude/platform.py:82-96 | with the assembled netloc, `make_url` fails exactly when the code as written fails, with the same exception except for a scheme that is not a string and has no `decode` key, where the now non-empty netloc raises `TypeError` instead of `AttributeError` |
| Urls.MakeUrlIntendedParts | dude/platform.py:88-96 | with the assembled netloc, parsing the URL gives back the scheme, the netloc, the path, the encoded query and the fragment, each in its place |
| Urls.SchemeHostUrlIntended | dude/platform.py:58-96 | with the assembled netloc, such a record gives `scheme://host[:port]` |
| Urls.Db1UrlIntended | dude/platform.py:73-79 | with the assembled netloc, the first record gives `postgres://db1:5432` |
| Urls.Db2UrlIntended | dude/platform.py:73-79 | with the assembled netloc, the second record gives `postgres://db2` |
| Urls.BoolSchemeUrlIntended | dude/platform.py:86-96 | with the assembled netloc `h`, `{scheme: True, hostname: h}` raises `TypeError` |
| Lookups.Iterate | dude/platform.py:195 | iterating a list gives its items, a mapping its keys and a string its characters; iterating anything else raises `TypeError` |
| Lookups.DictValues | dude/platform.py:194 | `values()` gives one value per entry, in insertion order |
| Lookups.Subscript | dude/platform.py:189 | `rels[name]` on a mapping succeeds exactly when `name` is a key and raises `KeyError(name)` otherwise; on anything else it raises `TypeError` |
| Lookups.Relationship | dude/platform.py:186-189 | `None` when the relationships are falsy; for a truthy mapping, the entry under `name`, or `KeyError(name)` when it is missing |
| Lookups.MapStream | dude/platform.py:201 | a drained `map`: `f` of each item, in order, up to the first item `f` raises on, whose exception ends the stream; otherwise the stream ends as its input did |
| Lookups.UrlsOf | dude/platform.py:201 | `map(make_url, items)` drained, with the corrected `make_url`: one URL per record, in order, up to the first record it raises on, whose exception ends the stream |
| Lookups.UrlsAsWritten | dude/platform.py:201 | the same stream with `make_url` as written |
| Lookups.UrlsShape | dude/platform.py:201 | the as-written and the corrected URL streams have the same length and end the same way; the exception differs only as `Urls.MakeUrlIntended` states |
| Lookups.UrlsOfRelationship | dude/platform.py:201 | `map(make_url, rel or ())` with the corrected `make_url`: nothing for a falsy relationship; one URL per record of a list; `TypeError` for a value that cannot be iterated |
| Lookups.RelationshipUrls | dude/platform.py:199-201 | with the corrected `make_url`: empty when the relationships are falsy; the lookup's exception when it raises; one URL per record of a listed relationship |
| Lookups.IsService | dude/platform.py:196 | `svc.service == service` answers exactly for a mapping with a `service` key, and is true exactly when that key holds `service`; otherwise it raises `AttributeError` |
| Lookups.Matching | dude/platform.py:195-197 | every record the inner loop yields provides the service |
| Lookups.ServicesIn | dude/platform.py:194-197 | every record the outer loop yields provides the service |
| Lookups.ServiceStream | dude/platform.py:191-197 | nothing when the relationships are falsy; `AttributeError` when they are not a mapping; otherwise only records that provide the service |
| Lookups.MatchingStops | dude/platform.py:195-197 | once a record has raised, the later records of that relationship are never looked at |
| Lookups.ServicesStop | dude/platform.py:194-197 | once a relationship has raised, the later relationships are never looked at |
| Lookups.MatchingSelects | dude/platform.py:195-197 | the inner loop ends without error exactly when every record has a `service`, and then it yields exactly the matching records, in list order |
| Lookups.ServicesSelect | dude/platform.py:193-197 | `get_service` ends without error exactly when every relationship is iterable and every record has a `service`; it then yields exactly the matching records, relationship by relationship, in list order |
| Lookups.ServiceUrlsFollowServices | dude/platform.py:203-205 | with the corrected `make_url`, a `get_service_urls` that runs to the end gives one URL per record `get_service` yields, in the same order; those records are exactly the matching ones |
| Lookups.ExampleDatabase | dude/platform.py:186-189 | the example relationships list the two database records under `database` |
| Lookups.ExampleRelationshipUrls | dude/platform.py:199-201 | with the corrected `make_url`, the example relationship gives `postgres://db1:5432` then `postgres://db2` |
| Lookups.ExampleRelationshipUrlsAsWritten | dude/platform.py:199-201 | as written, the example relationship lists the two records and gives `postgres:` twice |
| Platform.DecodeJson | dude/platform.py:36-40 | bad base64 raises the base64 error; undecodable JSON raises the JSON error; nothing else is raised; valid base64 JSON decodes to the JSON value with every object made an `attrdict`, and every such object at every depth has distinct keys |
| Platform.DecodeThenRead | dude/platform.py:36-40 | decoding a JSON object and reading a key as an attribute gives the decoded value of the last pair with that key, or `AttributeError(k)` for a key the text lacks |
| Platform.ReadBinding | dude/platform.py:131-135 | an absent or empty variable reads as `None`; a JSON binding decodes the text; any other binding returns the text, so it never raises and never gives an empty string |
| Platform.ReprKeys | dude/platform.py:164-166 | the keys can be read back from `PlatformEnvironment(k1, k2, …)` when none is empty or holds a comma |
| Platform.ShellText | dude/platform.py:170-175 | a string value is written as it is; any other value, `None` included, as base64 of its JSON |
| Platform.ShellTextDecodes | dude/platform.py:170-175 | the text written for a value that is not a string is read back by `decode_json`, when base64 and JSON decode what they encode |
| Platform.FormatLine | dude/platform.py:177-183 | a `declare -x` line reads back as its raw key and the value's text, for any key without `=` |
| Platform.ParseDeclaration | dude/platform.py:183 | a line whose word the shell reads as `text` reads back as its key and `text` |
| Platform.MatchingServices | dude/platform.py:195-197 | the inner loop over one relationship's records computes the stream `Matching` specifies |
| Platform.Environment.constructor | dude/platform.py:143-149 | the new object holds the given keys and the given attribute bindings |
| Platform.Environment.KeyAttributes | dude/platform.py:244-248 | with every key's name bound (as `build_environment` binds them), each key's attribute is read through its descriptor and never raises the bare `AttributeError` |
| Platform.Environment.Attribute | dude/platform.py:151-156 | a bound name reads its variable through the descriptor; an unbound known name is `None`; a bare `AttributeError` is raised exactly for any other name; a read raises nothing else except a decoding error |
| Platform.Environment.Repr | dude/platform.py:164-166 | the `repr` starts with `PlatformEnvironment(` and ends with `)` |
| Platform.Environment.ReprRoundTrip | dude/platform.py:164-166 | the object's keys can be read back from its `repr` |
| Platform.Environment.Line | dude/platform.py:179-183 | a key's line fails exactly when reading its attribute does, with that exception; otherwise it reads back as the raw key and the attribute's text |
| Platform.Environment.Lines | dude/platform.py:179-184 | the drained line generator gives the lines of the keys in order, and stops at the first key whose attribute read raises, with that exception; it ends without error exactly when every line can be built |
| Platform.Environment.Serialize | dude/platform.py:168-184 | `str(env)` succeeds exactly when every key's line can be built, and is then their concatenation in `_keys` order; otherwise it raises the exception of the first key whose line fails, every earlier line having been built; with every key's name bound, only a decoding error can be raised |
| Platform.Environment.Relationships | dude/platform.py:188 | `self.relationships` is `None` when no variable is bound to it |
| Platform.Environment.GetRelationship | dude/platform.py:186-189 | `get_relationship` is the lookup on the decoded relationships, and is `None` when nothing is bound to them |
| Platform.Environment.GetRelationshipUrls | dude/platform.py:199-201 | `get_relationship_urls` is the URL stream, with the corrected `make_url`, of the decoded relationships; it is empty when nothing is bound to them |
| Platform.Environment.GetService | dude/platform.py:191-197 | the nested loops yield what `ServiceStream` specifies for the decoded relationships, or raise the exception of reading them |
| Platform.Environment.GetServiceUrls | dude/platform.py:203-205 | the URLs, with the corrected `make_url`, of the records `get_service` yields, in the same order, ending as that stream ends |
| Build.SelectKeys | dude/platform.py:233-239 | a key is kept exactly when it starts with `PLATFORM`, is an extra key or is a keyword argument; no more keys than the environment has |
| Build.SelectKeysAppend | dude/platform.py:233-239 | selection keeps environment order |
| Build.SelectKeysDistinct | dude/platform.py:233-239 | the kept keys are distinct, as the environment's are |
| Build.DocumentedKeys | dude/platform.py:221-239 | `build_environment('SENDGRID_TOKEN', METADATA=True)` keeps the platform key and both named keys, in order, and not `HOME` |
| Build.BindingsOf | dude/platform.py:244-248 | every kept key's name is bound, and every bound name comes from a kept key |
| Build.BindingsOfLast | dude/platform.py:241-248 | a name is bound to the last key with that name, and decodes JSON exactly when that key is a JSON variable or a keyword argument |
| Build.BuildEnvironment | dude/platform.py:233-256 | the new object holds the kept keys in order and one binding per name; every key's name is bound |

## Left out

- **Library routines** (parameters of the model rather than definitions):
  - base64 encoding and decoding;
  - `json.loads` and `json.dumps`, including key sorting and separators;
  - `quote_plus`;
  - `str()` of a list or a mapping.
  
  The round trip of a value through `str(env)` and `decode_json` therefore
  goes no further than the base64 JSON text.
- **Byte conversions.** `os.fsencode`, `os.fsdecode` and `os.getenvb` are
  not modelled. The environment is a map from text to text.
- **Floats.** Float values are not part of the value type.
- **Case mapping.** Upper- and lower-casing are ASCII only; non-ASCII case
  mapping is left out.
- Urls.Unsplit: two Python-specific rules of `urlunsplit` are left out, and
  recomposition follows section 5.3 of RFC 3986 instead:
  - the `uses_netloc` scheme list, which forces `//` even with an empty
    netloc;
  - the `/` it puts before a relative path when a netloc is present.
  
  It is defined only for components as `make_url` hands them over, each
  truthy or `''`. Bytes components are not modelled, and every mapping is
  taken to be an `attrdict`, as `decode_json` builds them.
- Urls.SchemeHostUrlAsWritten: stated only for schemes outside
  `uses_netloc`. For `http`, `https`, `ftp` and the other listed schemes,
  Python writes `scheme://`, which the recomposition above does not
  produce.
- Urls.MakeUrl: only one direction of "`make_url` fails exactly when
  `make_netloc` fails" is stated, plus a success condition. The other
  direction is false of the code: `urlencode` of a non-mapping and a
  non-string component also raise.
- Lookups.UrlsOf: maps the corrected `make_url` (assembled netloc), not the
  one the source calls. The as-written stream is `Lookups.UrlsAsWritten`,
  and `Lookups.UrlsShape` relates the two.
- Lookups.UrlsOfRelationship: uses the corrected `make_url`; see
  `Lookups.UrlsShape` for how it relates to the code as written.
- Lookups.RelationshipUrls: uses the corrected `make_url`, as above.
- Lookups.ServiceUrlsFollowServices: uses the corrected `make_url`, as above.
- Lookups.ExampleRelationshipUrls: uses the corrected `make_url`. As written
  the example gives `postgres:` twice
  (`Lookups.ExampleRelationshipUrlsAsWritten`).
- Platform.Environment.GetRelationshipUrls: uses the corrected `make_url`, as
  above.
- Platform.Environment.GetServiceUrls: uses the corrected `make_url`, as
  above.
- **Laziness.**
  - The `tee` and `map` pipelines and the generators are modelled as drained
    streams. Partial consumption is not modelled.
  - The environment is one snapshot per call.
  - `get_relationship` and `get_service` read `self.relationships` twice in
    the source; the model reads it once.
- **Class machinery.**
  - `__dir__` of `attrdict` and of `Environment`;
  - the `type(...)` class synthesis (it becomes the `bindings` map);
  - the descriptor protocol;
  - attribute names that clash with members of the class or with
    `__slots__`.
- **Module-level object.** The `environment = build_environment()` at import
  time is not modelled, because it reads the real process environment.
- **The rest of the repository** (the Flask application, the middleware and
  the front-end build files) is not part of this model.

## Findings

| source | as written | input that shows it | evidently intended | confidence | as-written member | corrected member |
|---|---|---|---|---|---|---|
| dude/platform.py:73-79 | `make_netloc` assembles `netloc` on its last path but never returns it, so it returns `None`, and `make_url` recomposes with an empty netloc | `make_url({'scheme': 'postgres', 'hostname': 'db1', 'port': 5432})` gives `postgres:` | return the assembled netloc, giving `postgres://db1:5432` as the docstring describes | high; not executed | Urls.Db1UrlAsWritten | Urls.Db1UrlIntended |

The as-written behaviour is modelled by:

- `Urls.MakeNetloc` and `Urls.MakeUrl`;
- `Urls.MakeUrlDropsAuthority`, for all records;
- `Urls.SchemeHostUrlAsWritten`.

The corrected definitions are `Urls.MakeNetlocIntended` and
`Urls.MakeUrlIntended`. `Urls.MakeUrlIntendedParts` and
`Urls.SchemeHostUrlIntended` state their properties.

The relationship and service URL streams use the corrected `make_url`. Its
exceptions are those of the code as written except for a scheme that is not
a string and has no `decode` key (`Urls.MakeUrlIntended`). `Lookups.UrlsAsWritten` and
`Lookups.ExampleRelationshipUrlsAsWritten` state what the code as written
yields.
