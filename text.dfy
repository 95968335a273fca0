/** String joining and splitting, as Python's `str.join` and `str.split`
    use them. */
module Text {

  /** `sep.join(parts)`. */
  function Join(parts: seq<string>, sep: string): string {
    if parts == [] then ""
    else if |parts| == 1 then parts[0]
    else parts[0] + sep + Join(parts[1..], sep)
  }

  /** The index of the first occurrence of `c` in `s`, if any. */
  function Find(s: string, c: char): (r: nat)
    ensures r <= |s|
    ensures forall k :: 0 <= k < r ==> s[k] != c
    ensures r < |s| ==> s[r] == c
  {
    if s == [] then 0 else if s[0] == c then 0 else 1 + Find(s[1..], c)
  }

  /** `s.split(c)` for a one-character separator. */
  function Split(s: string, c: char): (r: seq<string>)
    ensures r != []
    decreases |s|
  {
    var i := Find(s, c);
    if i == |s| then [s] else [s[..i]] + Split(s[i + 1..], c)
  }

  lemma FindAbsent(s: string, c: char)
    requires c !in s
    ensures Find(s, c) == |s|
  {
  }

  lemma {:induction false} FindAfter(a: string, c: char, b: string)
    requires c !in a
    ensures Find(a + [c] + b, c) == |a|
  {
    if a != [] {
      FindAfter(a[1..], c, b);
      assert (a + [c] + b)[1..] == a[1..] + [c] + b;
    }
  }

  /** Splitting undoes joining when no part holds the separator. */
  lemma {:induction false} SplitJoin(parts: seq<string>, c: char)
    requires parts != []
    requires forall i :: 0 <= i < |parts| ==> c !in parts[i]
    ensures Split(Join(parts, [c]), c) == parts
  {
    if |parts| == 1 {
      FindAbsent(parts[0], c);
    } else {
      var s := Join(parts, [c]);
      var rest := Join(parts[1..], [c]);
      assert s == parts[0] + [c] + rest;
      FindAfter(parts[0], c, rest);
      assert s[..|parts[0]|] == parts[0];
      assert s[|parts[0]| + 1..] == rest;
      SplitJoin(parts[1..], c);
    }
  }

  /** Each part with `pad` in front. */
  function Padded(parts: seq<string>, pad: string): (r: seq<string>)
    ensures |r| == |parts|
    ensures forall i :: 0 <= i < |parts| ==> r[i] == pad + parts[i]
  {
    seq(|parts|, i requires 0 <= i < |parts| => pad + parts[i])
  }

  /** Splitting at `c` a join whose separator is `c` followed by `pad`
      gives the parts back, all but the first with `pad` in front; `pre`
      is a prefix without `c`, which stays on the first part. */
  lemma {:induction false} SplitPaddedJoin(pre: string, parts: seq<string>, c: char, pad: string)
    requires parts != []
    requires c !in pre && c !in pad
    requires forall i :: 0 <= i < |parts| ==> c !in parts[i]
    ensures Split(pre + Join(parts, [c] + pad), c) == [pre + parts[0]] + Padded(parts[1..], pad)
    decreases |parts|
  {
    var sep := [c] + pad;
    if |parts| == 1 {
      assert c !in pre + parts[0];
      FindAbsent(pre + parts[0], c);
    } else {
      var rest := Join(parts[1..], sep);
      var head := pre + parts[0];
      var s := pre + Join(parts, sep);
      assert s == head + [c] + (pad + rest);
      assert c !in head;
      FindAfter(head, c, pad + rest);
      assert s[..|head|] == head;
      assert s[|head| + 1..] == pad + rest;
      SplitPaddedJoin(pad, parts[1..], c, pad);
      assert Padded(parts[1..], pad) == [pad + parts[1]] + Padded(parts[2..], pad);
    }
  }
}
