/** The values that flow through the platform resolver: what `json.loads`
    produces, what an environment read returns, and the exceptions raised on
    the way. */
module Values {
  import opened Wrappers

  /** A decoded JSON document, or the text of a plain environment variable.
      `Null` is Python's `None`. An `Obj` lists its entries in insertion
      order; the objects built by the decoder have distinct keys (see
      AttrDicts.FromPairs). JSON numbers with a fraction are not modelled. */
  datatype Value =
    | Str(s: string)
    | Int(i: int)
    | Bool(b: bool)
    | Null
    | Arr(items: seq<Value>)
    | Obj(entries: seq<(string, Value)>)

  /** The exceptions the core raises. `AttributeError("")` is the bare
      `raise AttributeError` of the environment object. */
  datatype Error =
    | AttributeError(attr: string)
    | KeyError(key: string)
    | TypeError
    | ValueError(message: string)
    | Base64Error
    | JsonError

  /** Python truthiness: empty strings, zero, `False`, `None` and empty
      containers are false. */
  predicate Truthy(v: Value) {
    match v
    case Str(s) => s != ""
    case Int(i) => i != 0
    case Bool(b) => b
    case Null => false
    case Arr(items) => items != []
    case Obj(entries) => entries != []
  }

  /** Python's `v or default`. */
  function Or(v: Value, default: Value): (r: Value)
    ensures Truthy(v) ==> r == v
    ensures !Truthy(v) ==> r == default
  {
    if Truthy(v) then v else default
  }

  /** The false values are exactly `None`, `False`, `0`, `''` and the empty
      containers. */
  lemma FalsyValues(v: Value)
    ensures !Truthy(v) <==> v in {Null, Bool(false), Int(0), Str(""), Arr([]), Obj([])}
  {
  }

  /** `v or default` is truthy exactly when one of the two is. */
  lemma OrTruthy(v: Value, default: Value)
    ensures Truthy(Or(v, default)) <==> Truthy(v) || Truthy(default)
  {
  }

  /** The library routines the core calls but does not define, passed in as
      functions: base64 decoding and encoding, `json.loads` (objects given as
      their raw key/value pairs, before the `attrdict` hook runs),
      `json.dumps(obj, sort_keys=True, separators=(',', ':'))`,
      `urllib.parse.quote_plus`, and `str()` of a list or a mapping. */
  datatype Lib = Lib(
    b64Decode: string -> Option<seq<bv8>>,
    jsonLoads: seq<bv8> -> Option<Value>,
    jsonDumps: Value -> string,
    b64Encode: string -> string,
    quotePlus: string -> string,
    containerStr: Value -> string)

  /** Python's `str(v)`, as `'{}'.format(v)` uses it. */
  function Show(v: Value, lib: Lib): (r: string)
    ensures v.Str? ==> r == v.s
    ensures v.Int? ==> ParseDecimal(r) == Some(v.i)
  {
    match v
    case Str(s) => s
    case Int(i) => DecimalRoundTrip(i); Decimal(i)
    case Bool(b) => if b then "True" else "False"
    case Null => "None"
    case Arr(_) => lib.containerStr(v)
    case Obj(_) => lib.containerStr(v)
  }

  predicate IsDigit(c: char) { '0' <= c <= '9' }

  function DigitChar(d: int): (c: char)
    requires 0 <= d < 10
    ensures IsDigit(c) && c as int - '0' as int == d
  {
    ('0' as int + d) as char
  }

  /** The decimal numeral of `n`, most significant digit first, with no
      leading zeros. */
  function NatDecimal(n: nat): (r: string)
    ensures r != []
    ensures forall k :: 0 <= k < |r| ==> IsDigit(r[k])
  {
    if n < 10 then [DigitChar(n)] else NatDecimal(n / 10) + [DigitChar(n % 10)]
  }

  /** Python's `str(i)` for an integer. */
  function Decimal(i: int): (r: string)
    ensures r != []
    ensures forall k :: 0 <= k < |r| ==> IsDigit(r[k]) || (k == 0 && r[k] == '-')
  {
    if i < 0 then "-" + NatDecimal(-i) else NatDecimal(i)
  }

  /** Reads back a string of digits as a number. */
  function DigitsValue(s: string): nat
    requires forall k :: 0 <= k < |s| ==> IsDigit(s[k])
  {
    if s == [] then 0
    else
      assert IsDigit(s[|s| - 1]);
      DigitsValue(s[..|s| - 1]) * 10 + (s[|s| - 1] as int - '0' as int)
  }

  /** Python's `int(s)` restricted to an optional minus sign and digits. */
  function ParseDecimal(s: string): Option<int> {
    if s != [] && s[0] == '-' then
      var t := s[1..];
      if t != [] && forall k :: 0 <= k < |t| ==> IsDigit(t[k]) then Some(0 - DigitsValue(t) as int) else None
    else if s != [] && forall k :: 0 <= k < |s| ==> IsDigit(s[k]) then Some(DigitsValue(s))
    else None
  }

  lemma {:induction false} NatDecimalRoundTrip(n: nat)
    ensures DigitsValue(NatDecimal(n)) == n
  {
    if n >= 10 {
      NatDecimalRoundTrip(n / 10);
      var r := NatDecimal(n);
      assert r[..|r| - 1] == NatDecimal(n / 10);
    }
  }

  /** `str()` of an integer reads back as the same integer. */
  lemma DecimalRoundTrip(i: int)
    ensures ParseDecimal(Decimal(i)) == Some(i)
  {
    if i < 0 {
      NatDecimalRoundTrip(-i);
      assert Decimal(i)[1..] == NatDecimal(-i);
    } else {
      NatDecimalRoundTrip(i);
    }
  }
}
