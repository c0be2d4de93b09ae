/** Python dictionaries with string keys as the decoders use them: entries in insertion order,
    `d[k] = v` (a new key goes last, an existing key keeps its place and takes the new value),
    `dict(zip(keys, values))`, and `d.setdefault(k, []).append(v)` for grouping repeated keys. */
module OrderedDict {
  import opened Wrappers

  function Keys<V>(d: seq<(string, V)>): (ks: seq<string>)
    ensures |ks| == |d|
    ensures forall i :: 0 <= i < |d| ==> ks[i] == d[i].0
  {
    seq(|d|, i requires 0 <= i < |d| => d[i].0)
  }

  predicate Distinct(ks: seq<string>) {
    forall i, j :: 0 <= i < j < |ks| ==> ks[i] != ks[j]
  }

  /** `if k not in keys: keys.append(k)`. */
  function AddKey(ks: seq<string>, k: string): (r: seq<string>)
    ensures k in r
    ensures forall x :: x in r <==> x in ks || x == k
    ensures Distinct(ks) ==> Distinct(r)
    ensures |ks| <= |r| && r[..|ks|] == ks
  {
    if k in ks then ks else ks + [k]
  }

  /** The distinct elements of `ks` in order of first occurrence. */
  function FirstOccurrences(ks: seq<string>): (r: seq<string>)
    ensures Distinct(r)
    ensures forall x :: x in r <==> x in ks
  {
    if ks == [] then []
    else
      var n := |ks| - 1;
      var r := AddKey(FirstOccurrences(ks[..n]), ks[n]);
      assert forall x :: x in ks <==> x in ks[..n] || x == ks[n] by {
        assert ks == ks[..n] + [ks[n]];
      }
      r
  }

  /** The position of the entry for `k`, or `|d|` when there is none. */
  function IndexOfKey<V>(d: seq<(string, V)>, k: string): (i: nat)
    ensures i <= |d|
    ensures i < |d| ==> d[i].0 == k
    ensures forall j :: 0 <= j < i ==> d[j].0 != k
  {
    if d == [] then 0 else if d[0].0 == k then 0 else 1 + IndexOfKey(d[1..], k)
  }

  /** Two dictionaries with the same keys in the same order find a key at the same place. */
  lemma IndexOfKeyByKeys<V, W>(d: seq<(string, V)>, e: seq<(string, W)>, k: string)
    requires Keys(d) == Keys(e)
    ensures IndexOfKey(d, k) == IndexOfKey(e, k)
    decreases |d|
  {
    assert |d| == |Keys(d)| == |e|;
    if d != [] {
      assert d[0].0 == Keys(d)[0] == e[0].0;
      assert Keys(d[1..]) == Keys(d)[1..] == Keys(e)[1..] == Keys(e[1..]);
      IndexOfKeyByKeys(d[1..], e[1..], k);
    }
  }

  /** `d.get(k)`. */
  function Lookup<V>(d: seq<(string, V)>, k: string): (r: Option<V>)
    ensures r.None? <==> k !in Keys(d)
  {
    var i := IndexOfKey(d, k);
    assert i < |d| ==> Keys(d)[i] == k;
    if i == |d| then None else Some(d[i].1)
  }

  /** `d[k] = v`. */
  function Put<V>(d: seq<(string, V)>, k: string, v: V): (r: seq<(string, V)>)
    ensures Keys(r) == AddKey(Keys(d), k)
    ensures Lookup(r, k) == Some(v)
    ensures forall x :: x != k ==> Lookup(r, x) == Lookup(d, x)
  {
    var i := IndexOfKey(d, k);
    if i == |d| then
      var r := d + [(k, v)];
      assert Lookup(d, k) == None;
      assert Keys(r) == Keys(d) + [k];
      forall x | x != k ensures IndexOfKey(r, x) == IndexOfKey(d, x) || (IndexOfKey(d, x) == |d| && IndexOfKey(r, x) == |r|) {
        PutNewIndex(d, k, v, x);
      }
      r
    else
      var r := d[i := (k, v)];
      assert Keys(r) == Keys(d);
      assert k in Keys(d) by { assert Keys(d)[i] == k; }
      IndexOfKeyByKeys(d, r, k);
      forall x | x != k ensures Lookup(r, x) == Lookup(d, x) {
        IndexOfKeyByKeys(d, r, x);
      }
      r
  }

  lemma PutNewIndex<V>(d: seq<(string, V)>, k: string, v: V, x: string)
    requires x != k
    ensures IndexOfKey(d + [(k, v)], x) == IndexOfKey(d, x)
      || (IndexOfKey(d, x) == |d| && IndexOfKey(d + [(k, v)], x) == |d| + 1)
    decreases |d|
  {
    if d != [] && d[0].0 != x {
      assert (d + [(k, v)])[1..] == d[1..] + [(k, v)];
      PutNewIndex(d[1..], k, v, x);
    }
  }

  /** `dict(zip(keys, values))`: each pair in turn is stored with `d[k] = v`. */
  function FromPairs<V>(ps: seq<(string, V)>): (d: seq<(string, V)>)
    ensures Keys(d) == FirstOccurrences(Keys(ps))
  {
    if ps == [] then []
    else
      var n := |ps| - 1;
      assert Keys(ps[..n]) == Keys(ps)[..n];
      Put(FromPairs(ps[..n]), ps[n].0, ps[n].1)
  }

  /** The value of the last pair with key `k`. */
  function LastValue<V>(ps: seq<(string, V)>, k: string): Option<V> {
    if ps == [] then None
    else if ps[|ps| - 1].0 == k then Some(ps[|ps| - 1].1)
    else LastValue(ps[..|ps| - 1], k)
  }

  /** In `dict(zip(keys, values))` a repeated key keeps the last value given for it. */
  lemma {:induction false} FromPairsLookup<V>(ps: seq<(string, V)>, k: string)
    ensures Lookup(FromPairs(ps), k) == LastValue(ps, k)
  {
    if ps != [] {
      FromPairsLookup(ps[..|ps| - 1], k);
    }
  }

  // ---------------------------------------------------------------- grouping

  /** `d.setdefault(k, []).append(v)`. */
  function AppendTo<V>(d: seq<(string, seq<V>)>, k: string, v: V): (r: seq<(string, seq<V>)>)
    ensures Keys(r) == AddKey(Keys(d), k)
    ensures Lookup(r, k) == Some(match Lookup(d, k) case None => [v] case Some(vs) => vs + [v])
    ensures forall x :: x != k ==> Lookup(r, x) == Lookup(d, x)
  {
    var i := IndexOfKey(d, k);
    Put(d, k, if i == |d| then [v] else d[i].1 + [v])
  }

  /** Grouping the pairs by key with `setdefault(k, []).append(v)`, in order. */
  function Group<V>(ps: seq<(string, V)>): (d: seq<(string, seq<V>)>)
    ensures Keys(d) == FirstOccurrences(Keys(ps))
  {
    if ps == [] then []
    else
      var n := |ps| - 1;
      assert Keys(ps[..n]) == Keys(ps)[..n];
      AppendTo(Group(ps[..n]), ps[n].0, ps[n].1)
  }

  /** The values of the pairs with key `k`, in order. */
  function Select<V>(ps: seq<(string, V)>, k: string): seq<V> {
    if ps == [] then []
    else Select(ps[..|ps| - 1], k) + (if ps[|ps| - 1].0 == k then [ps[|ps| - 1].1] else [])
  }

  /** After grouping, a key holds exactly the values given for it, in their original order. */
  lemma {:induction false} GroupLookup<V>(ps: seq<(string, V)>, k: string)
    ensures Lookup(Group(ps), k) == if Select(ps, k) == [] then None else Some(Select(ps, k))
  {
    if ps != [] {
      var n := |ps| - 1;
      GroupLookup(ps[..n], k);
      AppendToLookup(Group(ps[..n]), ps[n].0, ps[n].1, k, Select(ps[..n], k));
    }
  }

  lemma AppendToLookup<V>(g: seq<(string, seq<V>)>, k0: string, v: V, k: string, before: seq<V>)
    requires Lookup(g, k) == if before == [] then None else Some(before)
    ensures var after := before + (if k0 == k then [v] else []);
      Lookup(AppendTo(g, k0, v), k) == if after == [] then None else Some(after)
  {
    if k0 == k {
      assert before == [] ==> before + [v] == [v];
    } else {
      assert before + [] == before;
    }
  }

  // ---------------------------------------------------------------- rewriting values in place

  /** Every value replaced by `f` of it, keys untouched. */
  function MapValues<V, W>(d: seq<(string, V)>, f: V -> W): (r: seq<(string, W)>)
    ensures Keys(r) == Keys(d)
    ensures |r| == |d| && forall i :: 0 <= i < |d| ==> r[i].1 == f(d[i].1)
  {
    seq(|d|, i requires 0 <= i < |d| => (d[i].0, f(d[i].1)))
  }

  lemma LookupMapValues<V, W>(d: seq<(string, V)>, f: V -> W, k: string)
    ensures Lookup(MapValues(d, f), k) == match Lookup(d, k) case None => None case Some(v) => Some(f(v))
  {
    IndexOfKeyByKeys(d, MapValues(d, f), k);
  }

  /** A grouped value after the singleton collapse: a key met once holds its value bare. */
  datatype Grouped<V> = One(value: V) | Many(values: seq<V>)

  function CollapseOne<V>(vs: seq<V>): Grouped<V> {
    if |vs| == 1 then One(vs[0]) else Many(vs)
  }

  /** Grouping then collapsing: a key given once holds its bare value, a key given several times
      holds all its values in order, and a key never given is absent. */
  lemma GroupCollapseLookup<V>(ps: seq<(string, V)>, k: string)
    ensures var sel := Select(ps, k);
      Lookup(MapValues(Group(ps), CollapseOne), k) ==
        if sel == [] then None else if |sel| == 1 then Some(One(sel[0])) else Some(Many(sel))
  {
    GroupLookup(ps, k);
    LookupMapValues(Group(ps), CollapseOne, k);
  }
}
