/**
 * JavaScript `Map` semantics: entries kept in insertion order, each key at
 * most once. `set` on a key that is present replaces its value and keeps the
 * entry where it was; `set` on a new key appends; `delete` removes the one
 * entry and keeps the others in order.
 */
module OrderedMap {
  import opened Wrappers

  /** The entries of a map, in iteration order. */
  type OMap<K, V> = seq<(K, V)>

  predicate UniqueKeys<K(==), V>(m: OMap<K, V>) {
    forall i, j :: 0 <= i < j < |m| ==> m[i].0 != m[j].0
  }

  function Keys<K, V>(m: OMap<K, V>): (ks: seq<K>)
    ensures |ks| == |m|
    ensures forall i :: 0 <= i < |m| ==> ks[i] == m[i].0
  {
    seq(|m|, i requires 0 <= i < |m| => m[i].0)
  }

  /** Position of the entry with key `k`, or `|m|` when there is none. */
  function IndexOf<K(==), V>(m: OMap<K, V>, k: K): (i: nat)
    ensures i <= |m|
    ensures i < |m| ==> m[i].0 == k
    ensures forall j :: 0 <= j < i ==> m[j].0 != k
  {
    if m == [] then 0 else if m[0].0 == k then 0 else 1 + IndexOf(m[1..], k)
  }

  /** `Map.prototype.has` */
  predicate HasKey<K(==), V>(m: OMap<K, V>, k: K) {
    IndexOf(m, k) < |m|
  }

  /** `Map.prototype.get`; `None` stands for `undefined`. */
  function Get<K(==), V>(m: OMap<K, V>, k: K): (r: Option<V>)
    ensures r.Some? <==> HasKey(m, k)
  {
    var i := IndexOf(m, k);
    if i < |m| then Some(m[i].1) else None
  }

  /** `Map.prototype.set` */
  function Set<K(==), V>(m: OMap<K, V>, k: K, v: V): (r: OMap<K, V>)
    ensures |r| == if HasKey(m, k) then |m| else |m| + 1
  {
    var i := IndexOf(m, k);
    if i < |m| then m[i := (k, v)] else m + [(k, v)]
  }

  /** `Map.prototype.delete` */
  function Delete<K(==), V>(m: OMap<K, V>, k: K): (r: OMap<K, V>)
    ensures |r| == if HasKey(m, k) then |m| - 1 else |m|
  {
    var i := IndexOf(m, k);
    if i < |m| then m[..i] + m[i + 1..] else m
  }

  /** Applies `set` for every pair of `ps`, first to last. */
  function SetAll<K(==), V>(m: OMap<K, V>, ps: seq<(K, V)>): OMap<K, V>
  {
    if ps == [] then m else Set(SetAll(m, ps[..|ps| - 1]), ps[|ps| - 1].0, ps[|ps| - 1].1)
  }

  /** The value of the last pair of `ps` with key `k`. */
  function LastWrite<K(==), V>(ps: seq<(K, V)>, k: K): Option<V>
  {
    if ps == [] then None
    else if ps[|ps| - 1].0 == k then Some(ps[|ps| - 1].1)
    else LastWrite(ps[..|ps| - 1], k)
  }

  /** The first position holding key `k` is determined by the keys alone. */
  lemma IndexOfIs<K, V>(m: OMap<K, V>, k: K, i: nat)
    requires i <= |m|
    requires i < |m| ==> m[i].0 == k
    requires forall j :: 0 <= j < i ==> m[j].0 != k
    ensures IndexOf(m, k) == i
  {
  }

  /** After `set(k, v)`: `k` maps to `v`, every other key keeps its value, the
      key order is unchanged for a present key and grows by `k` at the end for
      a new one, and keys stay unique. */
  lemma SetSpec<K, V>(m: OMap<K, V>, k: K, v: V)
    ensures Get(Set(m, k, v), k) == Some(v)
    ensures forall k' :: k' != k ==> Get(Set(m, k, v), k') == Get(m, k')
    ensures Keys(Set(m, k, v)) == if HasKey(m, k) then Keys(m) else Keys(m) + [k]
    ensures UniqueKeys(m) ==> UniqueKeys(Set(m, k, v))
  {
    var r := Set(m, k, v);
    var i := IndexOf(m, k);
    IndexOfIs(r, k, i);
    forall k' | k' != k
      ensures Get(r, k') == Get(m, k')
    {
      var j := IndexOf(m, k');
      IndexOfIs(r, k', if j < |m| then j else |r|);
    }
    if i == |m| {
      assert Keys(r) == Keys(m) + [k];
    } else {
      assert Keys(r) == Keys(m);
    }
  }

  /** After `delete(k)` on a map with unique keys: `k` is absent, every other
      key keeps its value, the other entries keep their order, and keys stay
      unique. Deleting an absent key changes nothing. */
  lemma DeleteSpec<K, V>(m: OMap<K, V>, k: K)
    requires UniqueKeys(m)
    ensures !HasKey(Delete(m, k), k)
    ensures forall k' :: k' != k ==> Get(Delete(m, k), k') == Get(m, k')
    ensures UniqueKeys(Delete(m, k))
    ensures !HasKey(m, k) ==> Delete(m, k) == m
    ensures HasKey(m, k) ==> Delete(m, k) == m[..IndexOf(m, k)] + m[IndexOf(m, k) + 1..]
  {
    var r := Delete(m, k);
    var i := IndexOf(m, k);
    if i < |m| {
      assert forall j :: 0 <= j < |r| ==> r[j] == (if j < i then m[j] else m[j + 1]);
      IndexOfIs(r, k, |r|);
      forall k' | k' != k
        ensures Get(r, k') == Get(m, k')
      {
        DeleteGetOther(m, k, k');
      }
    }
  }

  /** Deleting a present key leaves every other key's value. */
  lemma DeleteGetOther<K, V>(m: OMap<K, V>, k: K, k': K)
    requires HasKey(m, k) && k' != k
    ensures Get(Delete(m, k), k') == Get(m, k')
  {
    var r := Delete(m, k);
    var i := IndexOf(m, k);
    var j := IndexOf(m, k');
    assert r == m[..i] + m[i + 1..];
    if j < i {
      forall n | 0 <= n < j
        ensures r[n].0 != k'
      {
        assert r[n] == m[n];
      }
      assert r[j] == m[j];
      IndexOfIs(r, k', j);
    } else {
      assert j != i;
      forall n | 0 <= n < j - 1
        ensures r[n].0 != k'
      {
        if n < i {
          assert r[n] == m[n];
        } else {
          assert r[n] == m[n + 1];
        }
      }
      if j < |m| {
        assert r[j - 1] == m[j];
      }
      IndexOfIs(r, k', j - 1);
    }
  }

  /** `set` applied pair by pair: a key written in `ps` ends up with its last
      written value, any other key keeps the value it had in `m`. */
  lemma {:induction false} SetAllGet<K, V>(m: OMap<K, V>, ps: seq<(K, V)>, k: K)
    ensures Get(SetAll(m, ps), k) == match LastWrite(ps, k) case Some(v) => Some(v) case None => Get(m, k)
    decreases |ps|
  {
    if ps != [] {
      var pre, last := ps[..|ps| - 1], ps[|ps| - 1];
      SetAllGet(m, pre, k);
      SetSpec(SetAll(m, pre), last.0, last.1);
    }
  }

  /** `set` applied pair by pair keeps every entry already in `m` at its
      position (only values change there), keeps keys unique, and holds
      every key written. */
  lemma SetAllKeys<K, V>(m: OMap<K, V>, ps: seq<(K, V)>)
    requires UniqueKeys(m)
    ensures |SetAll(m, ps)| >= |m|
    ensures Keys(SetAll(m, ps))[..|m|] == Keys(m)
    ensures UniqueKeys(SetAll(m, ps))
    ensures forall i :: 0 <= i < |ps| ==> HasKey(SetAll(m, ps), ps[i].0)
  {
    SetAllPrefix(m, ps);
    SetAllHas(m, ps);
  }

  lemma {:induction false} SetAllPrefix<K, V>(m: OMap<K, V>, ps: seq<(K, V)>)
    requires UniqueKeys(m)
    ensures |SetAll(m, ps)| >= |m|
    ensures Keys(SetAll(m, ps))[..|m|] == Keys(m)
    ensures UniqueKeys(SetAll(m, ps))
    decreases |ps|
  {
    if ps != [] {
      var pre, last := ps[..|ps| - 1], ps[|ps| - 1];
      var prev := SetAll(m, pre);
      SetAllPrefix(m, pre);
      SetSpec(prev, last.0, last.1);
      assert Keys(SetAll(m, ps))[..|prev|] == Keys(prev);
      assert Keys(SetAll(m, ps))[..|m|] == Keys(prev)[..|m|];
    }
  }

  lemma SetAllHas<K, V>(m: OMap<K, V>, ps: seq<(K, V)>)
    ensures forall i :: 0 <= i < |ps| ==> HasKey(SetAll(m, ps), ps[i].0)
  {
    forall i | 0 <= i < |ps|
      ensures HasKey(SetAll(m, ps), ps[i].0)
    {
      SetAllHasAt(m, ps, i);
    }
  }

  lemma {:induction false} SetAllHasAt<K, V>(m: OMap<K, V>, ps: seq<(K, V)>, i: nat)
    requires i < |ps|
    ensures HasKey(SetAll(m, ps), ps[i].0)
    decreases |ps|
  {
    var pre, last := ps[..|ps| - 1], ps[|ps| - 1];
    var prev := SetAll(m, pre);
    if i == |ps| - 1 {
      SetKeepsKey(prev, last.0, last.1, last.0);
    } else {
      SetAllHasAt(m, pre, i);
      assert pre[i] == ps[i];
      SetKeepsKey(prev, last.0, last.1, ps[i].0);
    }
  }

  /** After `set`, the key set holds and every key present before. */
  lemma SetKeepsKey<K, V>(m: OMap<K, V>, k: K, v: V, k': K)
    requires k' == k || HasKey(m, k')
    ensures HasKey(Set(m, k, v), k')
  {
    SetSpec(m, k, v);
    if k' != k {
      assert Get(Set(m, k, v), k') == Get(m, k');
    }
  }

  /** Setting pairs `a` then pairs `b` is setting `a + b`. */
  lemma {:induction false} SetAllAppend<K, V>(m: OMap<K, V>, a: seq<(K, V)>, b: seq<(K, V)>)
    ensures SetAll(SetAll(m, a), b) == SetAll(m, a + b)
    decreases |b|
  {
    if b != [] {
      SetAllAppend(m, a, b[..|b| - 1]);
      assert (a + b)[..|a + b| - 1] == a + b[..|b| - 1];
      assert (a + b)[|a + b| - 1] == b[|b| - 1];
    } else {
      assert a + b == a;
    }
  }

  /** Into an empty map, pairs with distinct keys are set as they are. */
  lemma {:induction false} SetAllFresh<K, V>(ps: seq<(K, V)>)
    requires UniqueKeys(ps)
    ensures SetAll([], ps) == ps
    decreases |ps|
  {
    if ps != [] {
      var pre := ps[..|ps| - 1];
      SetAllFresh(pre);
      IndexOfIs(pre, ps[|ps| - 1].0, |pre|);
    }
  }
}
