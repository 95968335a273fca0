/** The `attrdict` mapping: a Python dict whose keys can also be read as
    attributes, and the `object_pairs_hook` that turns every decoded JSON
    object into one. A dict is an association list in insertion order. */
module AttrDicts {
  import opened Wrappers
  import opened Values

  type Entries = seq<(string, Value)>

  function Keys(d: Entries): (ks: seq<string>)
    ensures |ks| == |d|
    ensures forall i :: 0 <= i < |d| ==> ks[i] == d[i].0
  {
    seq(|d|, i requires 0 <= i < |d| => d[i].0)
  }

  /** A Python dict never holds a key twice. */
  predicate DistinctKeys(d: Entries) {
    forall i, j :: 0 <= i < j < |d| ==> d[i].0 != d[j].0
  }

  /** `d[k]`: the value stored under `k`, or `KeyError(k)`. */
  function Index(d: Entries, k: string): (r: Result<Value, Error>)
    ensures r.Ok? <==> k in Keys(d)
    ensures r.Err? ==> r.error == KeyError(k)
    ensures r.Ok? ==> (k, r.value) in d
  {
    if d == [] then Err(KeyError(k))
    else if d[0].0 == k then Ok(d[0].1)
    else
      assert Keys(d) == [d[0].0] + Keys(d[1..]);
      Index(d[1..], k)
  }

  /** `d.get(k, default)`. */
  function Get(d: Entries, k: string, default: Value): (r: Value)
    ensures k !in Keys(d) ==> r == default
    ensures k in Keys(d) ==> Index(d, k) == Ok(r)
  {
    match Index(d, k)
    case Ok(v) => v
    case Err(_) => default
  }

  /** `attrdict.__getattr__`: an attribute read is a key read whose
      `KeyError` is turned into `AttributeError`. */
  function GetAttr(d: Entries, name: string): (r: Result<Value, Error>)
    ensures r.Ok? <==> Index(d, name).Ok?
    ensures r.Ok? ==> r.value == Index(d, name).value
    ensures r.Err? ==> r.error == AttributeError(name)
  {
    match Index(d, name)
    case Ok(v) => Ok(v)
    case Err(_) => Err(AttributeError(name))
  }

  /** `d[k] = v`: an existing key keeps its position and takes the new
      value; a new key goes at the end. */
  function Put(d: Entries, k: string, v: Value): (r: Entries)
    ensures |r| == if k in Keys(d) then |d| else |d| + 1
  {
    if d == [] then [(k, v)]
    else if d[0].0 == k then [(k, v)] + d[1..]
    else
      assert Keys(d) == [d[0].0] + Keys(d[1..]);
      [d[0]] + Put(d[1..], k, v)
  }

  lemma KeysCons(e: (string, Value), d: Entries)
    ensures Keys([e] + d) == [e.0] + Keys(d)
  {
  }

  lemma {:induction false} PutKeys(d: Entries, k: string, v: Value)
    ensures Keys(Put(d, k, v)) == if k in Keys(d) then Keys(d) else Keys(d) + [k]
  {
    if d != [] {
      assert d == [d[0]] + d[1..];
      KeysCons(d[0], d[1..]);
      if d[0].0 != k {
        PutKeys(d[1..], k, v);
        KeysCons(d[0], Put(d[1..], k, v));
      } else {
        KeysCons((k, v), d[1..]);
      }
    }
  }

  /** After `d[k] = v`, `d[k]` reads `v` and every other key reads as before. */
  lemma {:induction false} PutIndex(d: Entries, k: string, v: Value, k': string)
    ensures Index(Put(d, k, v), k) == Ok(v) && (k, v) in Put(d, k, v)
    ensures k' != k ==> Index(Put(d, k, v), k') == Index(d, k')
  {
    if d != [] && d[0].0 != k {
      PutIndex(d[1..], k, v, k');
    }
  }

  lemma {:induction false} PutEntries(d: Entries, k: string, v: Value)
    ensures forall e :: e in Put(d, k, v) ==> e == (k, v) || e in d
  {
    if d != [] && d[0].0 != k {
      PutEntries(d[1..], k, v);
      assert Put(d, k, v) == [d[0]] + Put(d[1..], k, v);
    }
  }

  lemma PutDistinct(d: Entries, k: string, v: Value)
    requires DistinctKeys(d)
    ensures DistinctKeys(Put(d, k, v))
  {
    var r := Put(d, k, v);
    PutKeys(d, k, v);
    var kd, kr := Keys(d), Keys(r);
    forall i, j | 0 <= i < j < |r| ensures r[i].0 != r[j].0 {
      assert r[i].0 == kr[i] && r[j].0 == kr[j];
      if j < |d| {
        assert kr[i] == kd[i] && kr[j] == kd[j];
      } else {
        assert kr[j] == k && kr[i] == kd[i];
        assert kd[i] in kd;
      }
    }
  }

  /** The value the LAST pair with key `k` carries, searching from the end:
      `dict(pairs)` keeps that one. */
  function LastValue(ps: Entries, k: string): Option<Value> {
    if ps == [] then None
    else if ps[|ps| - 1].0 == k then Some(ps[|ps| - 1].1)
    else LastValue(ps[..|ps| - 1], k)
  }

  /** `attrdict(pairs)`, the `object_pairs_hook`: insert the pairs in order. */
  function FromPairs(ps: Entries): (r: Entries)
    ensures |r| <= |ps|
  {
    if ps == [] then []
    else
      var init, last := ps[..|ps| - 1], ps[|ps| - 1];
      Put(FromPairs(init), last.0, last.1)
  }

  /** The dict built from pairs has exactly the keys of the pairs. */
  lemma {:induction false} FromPairsKeys(ps: Entries)
    ensures forall k :: k in Keys(FromPairs(ps)) <==> k in Keys(ps)
  {
    if ps != [] {
      var init, last := ps[..|ps| - 1], ps[|ps| - 1];
      FromPairsKeys(init);
      PutKeys(FromPairs(init), last.0, last.1);
      assert Keys(ps) == Keys(init) + [last.0];
    }
  }

  lemma {:induction false} FromPairsDistinct(ps: Entries)
    ensures DistinctKeys(FromPairs(ps))
  {
    if ps != [] {
      FromPairsDistinct(ps[..|ps| - 1]);
      PutDistinct(FromPairs(ps[..|ps| - 1]), ps[|ps| - 1].0, ps[|ps| - 1].1);
    }
  }

  /** Every entry of a dict built from pairs is one of the pairs. */
  lemma {:induction false} FromPairsEntries(ps: Entries)
    ensures forall e :: e in FromPairs(ps) ==> e in ps
  {
    if ps != [] {
      var init, last := ps[..|ps| - 1], ps[|ps| - 1];
      FromPairsEntries(init);
      PutEntries(FromPairs(init), last.0, last.1);
      assert ps == init + [last];
    }
  }

  /** Reading key `k` of a dict built from pairs gives the last value paired
      with `k`, and `KeyError(k)` when no pair has that key. */
  lemma {:induction false} FromPairsIndex(ps: Entries, k: string)
    ensures Index(FromPairs(ps), k) == match LastValue(ps, k)
                                       case Some(v) => Ok(v)
                                       case None => Err(KeyError(k))
  {
    if ps != [] {
      var init, last := ps[..|ps| - 1], ps[|ps| - 1];
      FromPairsIndex(init, k);
      PutIndex(FromPairs(init), last.0, last.1, k);
    }
  }

  /** Inserting a new key appends it. */
  lemma {:induction false} PutNew(d: Entries, k: string, v: Value)
    requires k !in Keys(d)
    ensures Put(d, k, v) == d + [(k, v)]
  {
    if d != [] {
      KeysCons(d[0], d[1..]);
      assert d == [d[0]] + d[1..];
      assert d[0].0 != k && k !in Keys(d[1..]);
      PutNew(d[1..], k, v);
      calc {
        Put(d, k, v);
        [d[0]] + Put(d[1..], k, v);
        [d[0]] + (d[1..] + [(k, v)]);
        d + [(k, v)];
      }
    }
  }

  /** Pairs with distinct keys build a dict holding exactly those pairs, in
      their order. */
  lemma {:induction false} FromPairsOfDistinct(ps: Entries)
    requires DistinctKeys(ps)
    ensures FromPairs(ps) == ps
  {
    if ps != [] {
      var init, last := ps[..|ps| - 1], ps[|ps| - 1];
      assert DistinctKeys(init) by {
        forall i, j | 0 <= i < j < |init| ensures init[i].0 != init[j].0 {
          assert init[i] == ps[i] && init[j] == ps[j];
        }
      }
      FromPairsOfDistinct(init);
      forall i | 0 <= i < |init| ensures Keys(init)[i] != last.0 {
        assert Keys(init)[i] == ps[i].0;
      }
      PutNew(init, last.0, last.1);
      assert ps == init + [last];
    }
  }

  /** Where `k` first occurs in `ks`. */
  function FirstIndex(ks: seq<string>, k: string): (i: nat)
    requires k in ks
    ensures i < |ks| && ks[i] == k && k !in ks[..i]
  {
    if ks[0] == k then 0
    else
      var i := FirstIndex(ks[1..], k);
      assert ks[..i + 1] == [ks[0]] + ks[1..][..i];
      i + 1
  }

  /** Appending does not move a first occurrence. */
  lemma FirstIndexAppend(ks: seq<string>, k: string, k': string)
    requires k in ks
    ensures FirstIndex(ks + [k'], k) == FirstIndex(ks, k)
  {
    var i := FirstIndex(ks, k);
    assert (ks + [k'])[..i] == ks[..i];
    FirstIndexUnique(ks + [k'], k, i);
  }

  lemma FirstIndexUnique(ks: seq<string>, k: string, i: nat)
    requires i < |ks| && ks[i] == k && k !in ks[..i]
    ensures FirstIndex(ks, k) == i
  {
  }

  /** The keys of `d` come in the order of their first occurrence in
      `ks`. */
  predicate OrderedBy(d: Entries, ks: seq<string>)
    requires forall k :: k in Keys(d) ==> k in ks
  {
    forall i, j :: 0 <= i < j < |d| ==> FirstIndex(ks, Keys(d)[i]) < FirstIndex(ks, Keys(d)[j])
  }

  /** Inserting the next key of `ks` keeps that order. */
  lemma PutOrder(d: Entries, ks: seq<string>, k: string, v: Value)
    requires forall x :: x in Keys(d) ==> x in ks
    requires OrderedBy(d, ks)
    requires k !in Keys(d) ==> k !in ks
    ensures forall x :: x in Keys(Put(d, k, v)) ==> x in ks + [k]
    ensures OrderedBy(Put(d, k, v), ks + [k])
  {
    PutKeys(d, k, v);
    var kr := Keys(Put(d, k, v));
    forall i, j | 0 <= i < j < |kr|
      ensures FirstIndex(ks + [k], kr[i]) < FirstIndex(ks + [k], kr[j])
    {
      assert Keys(d)[i] in Keys(d) && Keys(d)[i] == kr[i];
      FirstIndexAppend(ks, kr[i], k);
      if j < |d| {
        assert Keys(d)[j] in Keys(d) && Keys(d)[j] == kr[j];
        FirstIndexAppend(ks, kr[j], k);
      } else {
        FirstIndexUnique(ks + [k], k, |ks|);
      }
    }
  }

  /** `dict(pairs)` orders its keys by their first occurrence among the
      pairs. */
  lemma {:induction false} FromPairsOrder(ps: Entries)
    ensures forall k :: k in Keys(FromPairs(ps)) ==> k in Keys(ps)
    ensures OrderedBy(FromPairs(ps), Keys(ps))
  {
    if ps != [] {
      var init, last := ps[..|ps| - 1], ps[|ps| - 1];
      FromPairsOrder(init);
      FromPairsKeys(init);
      FromPairsKeys(ps);
      PutOrder(FromPairs(init), Keys(init), last.0, last.1);
      assert FromPairs(ps) == Put(FromPairs(init), last.0, last.1);
      assert Keys(ps) == Keys(init) + [last.0];
    }
  }

  /** Every JSON object materialised as an `attrdict`, bottom up. */
  function Materialize(v: Value): (r: Value)
    ensures v.Arr? <==> r.Arr?
    ensures v.Obj? <==> r.Obj?
    ensures v.Arr? ==> |r.items| == |v.items|
    ensures v.Arr? ==> forall i :: 0 <= i < |v.items| ==> r.items[i] == Materialize(v.items[i])
    ensures v.Obj? ==> forall k :: k in Keys(r.entries) <==> k in Keys(v.entries)
    ensures !v.Arr? && !v.Obj? ==> r == v
    ensures Truthy(r) <==> Truthy(v)
    decreases v
  {
    match v
    case Arr(items) => Arr(seq(|items|, i requires 0 <= i < |items| => Materialize(items[i])))
    case Obj(es) =>
      var ms := seq(|es|, i requires 0 <= i < |es| => (es[i].0, Materialize(es[i].1)));
      assert Keys(ms) == Keys(es);
      FromPairsKeys(ms);
      Obj(FromPairs(ms))
    case _ => v
  }

  /** Every object inside `v` has distinct keys. */
  predicate WellFormed(v: Value)
    decreases v
  {
    match v
    case Arr(items) => forall i :: 0 <= i < |items| ==> WellFormed(items[i])
    case Obj(es) => DistinctKeys(es) && forall i :: 0 <= i < |es| ==> WellFormed(es[i].1)
    case _ => true
  }

  lemma {:induction false} MaterializeWellFormed(v: Value)
    ensures WellFormed(Materialize(v))
    decreases v
  {
    match v
    case Arr(items) =>
      forall i | 0 <= i < |items| ensures WellFormed(Materialize(items[i])) {
        MaterializeWellFormed(items[i]);
      }
    case Obj(es) =>
      var ms := seq(|es|, i requires 0 <= i < |es| => (es[i].0, Materialize(es[i].1)));
      FromPairsDistinct(ms);
      FromPairsEntries(ms);
      var d := FromPairs(ms);
      forall i | 0 <= i < |d| ensures WellFormed(d[i].1) {
        assert d[i] in ms;
        var j :| 0 <= j < |ms| && ms[j] == d[i];
        MaterializeWellFormed(es[j].1);
      }
    case _ =>
  }

  /** Reading key `k` of a decoded object as an attribute gives the decoded
      value of the last `k` pair of the JSON text; a key the text lacks gives
      `AttributeError(k)`. */
  lemma DecodedAttribute(es: Entries, k: string)
    ensures k in Keys(es) ==>
      exists i :: 0 <= i < |es| && es[i].0 == k &&
        GetAttr(Materialize(Obj(es)).entries, k) == Ok(Materialize(es[i].1)) &&
        forall j :: i < j < |es| ==> es[j].0 != k
    ensures k !in Keys(es) ==> GetAttr(Materialize(Obj(es)).entries, k) == Err(AttributeError(k))
  {
    var ms := seq(|es|, i requires 0 <= i < |es| => (es[i].0, Materialize(es[i].1)));
    FromPairsIndex(ms, k);
    LastValueSpec(ms, k);
    assert Keys(ms) == Keys(es);
  }

  lemma {:induction false} LastValueSpec(ps: Entries, k: string)
    ensures LastValue(ps, k).None? <==> k !in Keys(ps)
    ensures LastValue(ps, k).Some? ==>
      exists i :: 0 <= i < |ps| && ps[i] == (k, LastValue(ps, k).value) &&
        forall j :: i < j < |ps| ==> ps[j].0 != k
  {
    if ps != [] {
      var init := ps[..|ps| - 1];
      LastValueSpec(init, k);
      assert Keys(ps) == Keys(init) + [ps[|ps| - 1].0];
      if ps[|ps| - 1].0 != k && LastValue(init, k).Some? {
        var i :| 0 <= i < |init| && init[i] == (k, LastValue(init, k).value) &&
          forall j :: i < j < |init| ==> init[j].0 != k;
        assert ps[i] == init[i];
      }
    }
  }
}
