/** JSON objects as insertion-ordered association lists. Python dictionaries keep
    insertion order, and the source depends on it (the last app of a service, the
    order of ports and volumes), so a `map` would lose information. */
module Dicts {
  import opened Wrappers

  type Dict<V> = seq<(string, V)>

  function Keys<V>(d: Dict<V>): (ks: seq<string>)
    ensures |ks| == |d|
    ensures forall i :: 0 <= i < |d| ==> ks[i] == d[i].0
  {
    if d == [] then [] else [d[0].0] + Keys(d[1..])
  }

  function Values<V>(d: Dict<V>): (vs: seq<V>)
    ensures |vs| == |d|
    ensures forall i :: 0 <= i < |d| ==> vs[i] == d[i].1
  {
    if d == [] then [] else [d[0].1] + Values(d[1..])
  }

  predicate HasKey<V>(d: Dict<V>, k: string) {
    k in Keys(d)
  }

  /** What `json.load` guarantees: no key appears twice. */
  predicate DistinctKeys<V>(d: Dict<V>) {
    forall i, j :: 0 <= i < j < |d| ==> d[i].0 != d[j].0
  }

  /** `d.get(k)`: the value of the first entry with key `k`. */
  function Get<V>(d: Dict<V>, k: string): (r: Option<V>)
    ensures r.Some? <==> HasKey(d, k)
  {
    if d == [] then None
    else if d[0].0 == k then Some(d[0].1)
    else Get(d[1..], k)
  }

  /** The value `Get` returns belongs to an entry of the dictionary. */
  lemma {:induction false} GetIsEntry<V>(d: Dict<V>, k: string)
    requires HasKey(d, k)
    ensures exists i :: 0 <= i < |d| && d[i] == (k, Get(d, k).value)
  {
    if d[0].0 != k {
      GetIsEntry(d[1..], k);
      var i :| 0 <= i < |d[1..]| && d[1..][i] == (k, Get(d[1..], k).value);
      assert d[i + 1] == (k, Get(d, k).value);
    }
  }

  /** `d[k] = v`: replaces the value of an existing key in place, otherwise appends. */
  function Put<V>(d: Dict<V>, k: string, v: V): (r: Dict<V>)
    ensures |r| == if HasKey(d, k) then |d| else |d| + 1
    ensures HasKey(d, k) ==> Keys(r) == Keys(d)
    ensures !HasKey(d, k) ==> Keys(r) == Keys(d) + [k]
  {
    if d == [] then [(k, v)]
    else if d[0].0 == k then [(k, v)] + d[1..]
    else [d[0]] + Put(d[1..], k, v)
  }

  lemma {:induction false} GetPutSame<V>(d: Dict<V>, k: string, v: V)
    ensures Get(Put(d, k, v), k) == Some(v)
  {
    if d != [] && d[0].0 != k {
      GetPutSame(d[1..], k, v);
      assert Put(d, k, v)[1..] == Put(d[1..], k, v);
    }
  }

  lemma {:induction false} GetPutOther<V>(d: Dict<V>, k: string, v: V, k': string)
    requires k' != k
    ensures Get(Put(d, k, v), k') == Get(d, k')
  {
    if d != [] && d[0].0 != k {
      assert Put(d, k, v)[1..] == Put(d[1..], k, v);
      if d[0].0 != k' {
        GetPutOther(d[1..], k, v, k');
      }
    } else if d != [] {
      assert Put(d, k, v)[1..] == d[1..];
    }
  }

  /** Writing back the value a key already has changes nothing. */
  lemma {:induction false} PutExisting<V>(d: Dict<V>, k: string, v: V)
    requires Get(d, k) == Some(v)
    ensures Put(d, k, v) == d
  {
    if d != [] && d[0].0 != k {
      PutExisting(d[1..], k, v);
      assert d == [d[0]] + d[1..];
    } else if d != [] {
      assert d == [(k, v)] + d[1..];
    }
  }

  /** The second of two writes to a key wins. */
  lemma {:induction false} PutTwice<V>(d: Dict<V>, k: string, v: V, v': V)
    ensures Put(Put(d, k, v), k, v') == Put(d, k, v')
  {
    if d != [] && d[0].0 != k {
      PutTwice(d[1..], k, v, v');
    }
  }

  /** Replacing a key's value keeps the keys distinct. */
  lemma PutKeepsDistinct<V>(d: Dict<V>, k: string, v: V)
    requires DistinctKeys(d)
    ensures DistinctKeys(Put(d, k, v))
  {
    var r := Put(d, k, v);
    assert forall i :: 0 <= i < |r| ==> r[i].0 == Keys(r)[i];
    if !HasKey(d, k) {
      assert forall i :: 0 <= i < |d| ==> d[i].0 == Keys(d)[i];
    }
  }

  /** Dropping the first entry keeps the keys distinct. */
  lemma DistinctKeysTail<V>(d: Dict<V>)
    requires DistinctKeys(d) && d != []
    ensures DistinctKeys(d[1..])
  {
    forall i, j | 0 <= i < j < |d| - 1 ensures d[1..][i].0 != d[1..][j].0 {
      assert d[1..][i] == d[i + 1] && d[1..][j] == d[j + 1];
    }
  }

  /** Putting a new key appends its entry. */
  lemma {:induction false} PutAbsent<V>(d: Dict<V>, k: string, v: V)
    requires !HasKey(d, k)
    ensures Put(d, k, v) == d + [(k, v)]
  {
    if d != [] {
      assert d[0].0 == Keys(d)[0];
      assert forall i :: 0 <= i < |d[1..]| ==> Keys(d[1..])[i] == Keys(d)[i + 1];
      PutAbsent(d[1..], k, v);
      assert d == [d[0]] + d[1..];
    }
  }

  /** In a dictionary without repeated keys, `Get` finds every entry. */
  lemma {:induction false} GetEntry<V>(d: Dict<V>, i: nat)
    requires DistinctKeys(d) && i < |d|
    ensures Get(d, d[i].0) == Some(d[i].1)
  {
    if i > 0 {
      assert d[0].0 != d[i].0;
      assert d[1..][i - 1] == d[i];
      GetEntry(d[1..], i - 1);
    }
  }

  /** `[f(k, v) for k, v in d.items()]` where `f` may raise: the results in
      entry order, or the failure of the first entry that fails. */
  function MapAll<V, T, E>(d: Dict<V>, f: (string, V) -> Result<T, E>): (r: Result<seq<T>, E>)
    ensures r.Ok? <==> forall i :: 0 <= i < |d| ==> f(d[i].0, d[i].1).Ok?
    ensures r.Ok? ==> |r.value| == |d|
    ensures r.Ok? ==> forall i :: 0 <= i < |d| ==> r.value[i] == f(d[i].0, d[i].1).value
    ensures r.Err? ==> exists i :: 0 <= i < |d| && f(d[i].0, d[i].1).Err? && f(d[i].0, d[i].1).error == r.error
  {
    if d == [] then Ok([])
    else
      match f(d[0].0, d[0].1)
      case Err(e) => Err(e)
      case Ok(first) =>
        assert forall i :: 1 <= i < |d| ==> d[i] == d[1..][i - 1];
        match MapAll(d[1..], f)
        case Err(e) => Err(e)
        case Ok(rest) => Ok([first] + rest)
  }

  /** Every value mapped by `f` under its key, in order; `None` as soon as one
      entry fails. */
  function MapValues<S, C>(d: Dict<S>, f: (string, S) -> Option<C>): (r: Option<Dict<C>>)
    ensures r.Some? <==> forall i :: 0 <= i < |d| ==> f(d[i].0, d[i].1).Some?
    ensures r.Some? ==> Keys(r.value) == Keys(d)
    ensures r.Some? ==> forall i :: 0 <= i < |d| ==> Some(r.value[i].1) == f(d[i].0, d[i].1)
  {
    if d == [] then Some([])
    else
      match f(d[0].0, d[0].1)
      case None => None
      case Some(v) =>
        match MapValues(d[1..], f)
        case None => None
        case Some(rest) =>
          assert forall i :: 1 <= i < |d| ==> d[i] == d[1..][i - 1];
          Some([(d[0].0, v)] + rest)
  }

  /** Mapping twice with a function that is idempotent on each entry maps once. */
  lemma {:induction false} MapValuesIdempotent<S>(d: Dict<S>, f: (string, S) -> Option<S>)
    requires MapValues(d, f).Some?
    requires forall k, v :: f(k, v).Some? ==> f(k, f(k, v).value) == f(k, v)
    ensures MapValues(MapValues(d, f).value, f) == MapValues(d, f)
  {
    if d != [] {
      var once := MapValues(d, f).value;
      MapValuesIdempotent(d[1..], f);
      assert once[1..] == MapValues(d[1..], f).value;
      assert once[0] == (d[0].0, f(d[0].0, d[0].1).value);
    }
  }
}
