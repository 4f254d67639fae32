/**
 * Python dictionaries with string keys as the programs use them: insertion
 * ordered, assignment to an existing key keeps its position and replaces its
 * value. JSON values, as `json.dumps` would see the results, are built on them.
 */
module Dict {
  import opened Text

  /** A Python `dict` with string keys, in insertion order. */
  type Dict<V> = seq<(string, V)>

  function Keys<V>(d: Dict<V>): (ks: seq<string>)
    ensures |ks| == |d| && forall i :: 0 <= i < |d| ==> ks[i] == d[i].0
  {
    if d == [] then [] else [d[0].0] + Keys(d[1..])
  }

  lemma {:induction false} KeysAppend<V>(a: Dict<V>, b: Dict<V>)
    ensures Keys(a + b) == Keys(a) + Keys(b)
  {
    if a != [] {
      assert (a + b)[1..] == a[1..] + b;
      KeysAppend(a[1..], b);
    }
  }

  /** Python's `d.get(k)`. */
  function Lookup<V>(d: Dict<V>, k: string): (r: Option<V>)
    ensures r.None? <==> k !in Keys(d)
  {
    if d == [] then None else if d[0].0 == k then Some(d[0].1) else Lookup(d[1..], k)
  }

  predicate HasKey<V>(d: Dict<V>, k: string) {
    k in Keys(d)
  }

  /** Python's `d[k] = v`. */
  function Put<V>(d: Dict<V>, k: string, v: V): (r: Dict<V>)
    ensures Lookup(r, k) == Some(v)
    ensures forall k' :: k' != k ==> Lookup(r, k') == Lookup(d, k')
    ensures k in Keys(d) ==> Keys(r) == Keys(d)
    ensures k !in Keys(d) ==> r == d + [(k, v)]
  {
    if d == [] then [(k, v)]
    else if d[0].0 == k then
      PutHead(d, v);
      [(k, v)] + d[1..]
    else
      var t := Put(d[1..], k, v);
      PutBehindLookup(d, k, v, t);
      PutBehindKeys(d, k, v, t);
      PutBehindAppend(d, k, v, t);
      [d[0]] + t
  }

  /** Assigning to the first key replaces its value in place. */
  lemma PutHead<V>(d: Dict<V>, v: V)
    requires d != []
    ensures var r := [(d[0].0, v)] + d[1..];
      Lookup(r, d[0].0) == Some(v) &&
      (forall k' :: k' != d[0].0 ==> Lookup(r, k') == Lookup(d, k')) &&
      Keys(r) == Keys(d)
  {
    var r := [(d[0].0, v)] + d[1..];
    assert r[0].0 == d[0].0 && r[1..] == d[1..];
  }

  /**
   * Assigning to a key behind the first keeps the first entry in front of
   * `t`, the assignment to the rest: lookups, keys and the appended case.
   */
  lemma PutBehindLookup<V>(d: Dict<V>, k: string, v: V, t: Dict<V>)
    requires d != [] && d[0].0 != k
    requires Lookup(t, k) == Some(v)
    requires forall k' :: k' != k ==> Lookup(t, k') == Lookup(d[1..], k')
    requires k in Keys(d[1..]) ==> Keys(t) == Keys(d[1..])
    requires k !in Keys(d[1..]) ==> t == d[1..] + [(k, v)]
    ensures Lookup([d[0]] + t, k) == Some(v)
    ensures forall k' :: k' != k ==> Lookup([d[0]] + t, k') == Lookup(d, k')
  {
    ConsLookup(d[0], t, k);
    forall k' | k' != k
      ensures Lookup([d[0]] + t, k') == Lookup(d, k')
    {
      ConsLookup(d[0], t, k');
    }
  }

  lemma PutBehindKeys<V>(d: Dict<V>, k: string, v: V, t: Dict<V>)
    requires d != [] && d[0].0 != k
    requires Lookup(t, k) == Some(v)
    requires forall k' :: k' != k ==> Lookup(t, k') == Lookup(d[1..], k')
    requires k in Keys(d[1..]) ==> Keys(t) == Keys(d[1..])
    requires k !in Keys(d[1..]) ==> t == d[1..] + [(k, v)]
    ensures k in Keys(d) ==> Keys([d[0]] + t) == Keys(d)
  {
    assert d == [d[0]] + d[1..];
    ConsKeys(d[0], t);
    ConsKeys(d[0], d[1..]);
  }

  lemma PutBehindAppend<V>(d: Dict<V>, k: string, v: V, t: Dict<V>)
    requires d != [] && d[0].0 != k
    requires Lookup(t, k) == Some(v)
    requires forall k' :: k' != k ==> Lookup(t, k') == Lookup(d[1..], k')
    requires k in Keys(d[1..]) ==> Keys(t) == Keys(d[1..])
    requires k !in Keys(d[1..]) ==> t == d[1..] + [(k, v)]
    ensures k !in Keys(d) ==> [d[0]] + t == d + [(k, v)]
  {
    assert d == [d[0]] + d[1..];
    ConsKeys(d[0], d[1..]);
  }

  lemma ConsLookup<V>(p: (string, V), t: Dict<V>, k: string)
    ensures Lookup([p] + t, k) == if p.0 == k then Some(p.1) else Lookup(t, k)
  {
    assert ([p] + t)[0] == p && ([p] + t)[1..] == t;
  }

  lemma ConsKeys<V>(p: (string, V), t: Dict<V>)
    ensures Keys([p] + t) == [p.0] + Keys(t)
  {
    assert ([p] + t)[0] == p && ([p] + t)[1..] == t;
  }

  /** An assignment to a new key appends it. */
  lemma PutFresh<V>(d: Dict<V>, a: (string, V))
    requires a.0 !in Keys(d)
    ensures Put(d, a.0, a.1) == d + [a]
    ensures Keys(d + [a]) == Keys(d) + [a.0]
  {
    KeysAppend(d, [a]);
  }

  lemma PutFreshKeys<V>(d: Dict<V>, a: (string, V), k: string)
    requires k !in Keys(d) && k != a.0
    ensures k !in Keys(d + [a])
  {
    KeysAppend(d, [a]);
  }

  /** Two assignments to new keys append them in order. */
  lemma PutTwoFresh<V>(d: Dict<V>, a: (string, V), b: (string, V))
    requires a.0 !in Keys(d) && b.0 !in Keys(d) && a.0 != b.0
    ensures Put(Put(d, a.0, a.1), b.0, b.1) == d + [a, b]
  {
    PutFresh(d, a);
    PutFreshKeys(d, a, b.0);
    PutFresh(d + [a], b);
    AppendTwo(d, a, b);
  }

  /** The assignments `d[k] = v` for each `(k, v)` of `writes`, in order. */
  function PutAll<V>(d: Dict<V>, writes: seq<(string, V)>): Dict<V>
    decreases |writes|
  {
    if writes == [] then d else PutAll(Put(d, writes[0].0, writes[0].1), writes[1..])
  }

  /** The value of the last write to `k`, if there is one. */
  function LastWrite<V>(writes: seq<(string, V)>, k: string): Option<V> {
    if writes == [] then None
    else if writes[|writes| - 1].0 == k then Some(writes[|writes| - 1].1)
    else LastWrite(writes[..|writes| - 1], k)
  }

  lemma {:induction false} PutAllAppend<V>(d: Dict<V>, w1: seq<(string, V)>, w2: seq<(string, V)>)
    ensures PutAll(d, w1 + w2) == PutAll(PutAll(d, w1), w2)
    decreases |w1|
  {
    if w1 == [] {
      assert w1 + w2 == w2;
    } else {
      assert (w1 + w2)[0] == w1[0] && (w1 + w2)[1..] == w1[1..] + w2;
      PutAllAppend(Put(d, w1[0].0, w1[0].1), w1[1..], w2);
    }
  }

  lemma PutAllLast<V>(d: Dict<V>, w: seq<(string, V)>)
    requires w != []
    ensures PutAll(d, w) == Put(PutAll(d, w[..|w| - 1]), w[|w| - 1].0, w[|w| - 1].1)
  {
    assert w == w[..|w| - 1] + [w[|w| - 1]];
    PutAllAppend(d, w[..|w| - 1], [w[|w| - 1]]);
  }

  /** After a run of assignments, a key holds the value last written to it, or its old value. */
  lemma {:induction false} LookupPutAll<V>(d: Dict<V>, w: seq<(string, V)>, k: string)
    ensures Lookup(PutAll(d, w), k) == if LastWrite(w, k).Some? then LastWrite(w, k) else Lookup(d, k)
    decreases |w|
  {
    if w != [] {
      PutAllLast(d, w);
      LookupPutAll(d, w[..|w| - 1], k);
    }
  }

  /** A key has been written iff it is among the keys of the writes. */
  lemma {:induction false} LastWriteSome<V>(w: seq<(string, V)>, k: string)
    ensures LastWrite(w, k).Some? <==> k in Keys(w)
    decreases |w|
  {
    if w != [] {
      var init := w[..|w| - 1];
      LastWriteSome(init, k);
      assert Keys(w) == Keys(init) + [w[|w| - 1].0];
    }
  }

  /** The keys after a run of assignments: the old keys and every key written. */
  lemma KeysPutAll<V>(d: Dict<V>, w: seq<(string, V)>, k: string)
    ensures k in Keys(PutAll(d, w)) <==> k in Keys(d) || k in Keys(w)
  {
    LookupPutAll(d, w, k);
    LastWriteSome(w, k);
  }

  lemma {:induction false} LastWriteNone<V>(w: seq<(string, V)>, k: string)
    requires forall i :: 0 <= i < |w| ==> w[i].0 != k
    ensures LastWrite(w, k) == None
    decreases |w|
  {
    if w != [] {
      LastWriteNone(w[..|w| - 1], k);
    }
  }

  lemma {:induction false} LastWriteAppend<V>(w1: seq<(string, V)>, w2: seq<(string, V)>, k: string)
    ensures LastWrite(w1 + w2, k) == if LastWrite(w2, k).Some? then LastWrite(w2, k) else LastWrite(w1, k)
    decreases |w2|
  {
    if w2 == [] {
      assert w1 + w2 == w1;
    } else {
      assert (w1 + w2)[..|w1 + w2| - 1] == w1 + w2[..|w2| - 1];
      LastWriteAppend(w1, w2[..|w2| - 1], k);
    }
  }

  /** The last write to `k` in four runs of writes: from the last run that writes `k`. */
  lemma LastWriteOfFour<V>(a: seq<(string, V)>, b: seq<(string, V)>, c: seq<(string, V)>, d: seq<(string, V)>, k: string)
    ensures LastWrite(a + b + c + d, k) ==
      if LastWrite(d, k).Some? then LastWrite(d, k)
      else if LastWrite(c, k).Some? then LastWrite(c, k)
      else if LastWrite(b, k).Some? then LastWrite(b, k)
      else LastWrite(a, k)
  {
    LastWriteAppend(a + b + c, d, k);
    LastWriteAppend(a + b, c, k);
    LastWriteAppend(a, b, k);
  }

  /** A run of writes to `key` alone never writes another key. */
  lemma {:induction false} LastWriteOnly<V>(w: seq<(string, V)>, key: string, k: string)
    requires forall i :: 0 <= i < |w| ==> w[i].0 == key
    requires k != key
    ensures LastWrite(w, k).None?
    decreases |w|
  {
    if w != [] {
      LastWriteOnly(w[..|w| - 1], key, k);
    }
  }

  /** When no key is written twice, each write is the last one to its key. */
  lemma {:induction false} LastWriteDistinct<V>(w: seq<(string, V)>, i: nat)
    requires forall a, b :: 0 <= a < b < |w| ==> w[a].0 != w[b].0
    requires i < |w|
    ensures LastWrite(w, w[i].0) == Some(w[i].1)
    decreases |w|
  {
    if i < |w| - 1 {
      LastWriteDistinct(w[..|w| - 1], i);
    }
  }

  /** Python's JSON values as `json.dumps` sees the programs' results. */
  datatype Json =
    | JNull
    | JBool(b: bool)
    | JStr(s: string)
    | JList(items: seq<Json>)
    | JObject(fields: Dict<Json>)
}
