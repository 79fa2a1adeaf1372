/** Maps keyed by a tenant and a local key, and one tenant's slice of them. */
module Keyed {
  import opened Files

  function At<K, V>(m: map<(string, K), V>, t: string): map<K, V> {
    map p | p in m && p.0 == t :: p.1 := m[p]
  }

  /** `retain(|(t, _), _| t != tenant)`. */
  function Without<K(==), V>(m: map<(string, K), V>, t: string): map<(string, K), V> {
    map p | p in m && p.0 != t :: m[p]
  }

  lemma {:induction false} AtUpdate<K, V>(m: map<(string, K), V>, t: string, k: K, v: V)
    ensures At(m[(t, k) := v], t) == At(m, t)[k := v]
  {
  }

  lemma {:induction false} AtUpdateElsewhere<K, V>(m: map<(string, K), V>, t: string, k: K, v: V)
    ensures forall u :: u != t ==> At(m[(t, k) := v], u) == At(m, u)
  {
    forall u | u != t ensures At(m[(t, k) := v], u) == At(m, u) {
    }
  }

  lemma {:induction false} AtRemove<K, V>(m: map<(string, K), V>, t: string, k: K)
    ensures At(m - {(t, k)}, t) == At(m, t) - {k}
    ensures forall u :: u != t ==> At(m - {(t, k)}, u) == At(m, u)
  {
  }

  lemma {:induction false} AtLookup<K, V>(m: map<(string, K), V>, t: string, k: K)
    ensures k in At(m, t) <==> (t, k) in m
    ensures (t, k) in m ==> At(m, t)[k] == m[(t, k)]
  {
    if (t, k) in m {
      assert (t, k).0 == t && (t, k).1 == k;
    }
  }

  lemma {:induction false} AtWithout<K, V>(m: map<(string, K), V>, t: string)
    ensures At(Without(m, t), t) == map[]
    ensures forall u :: u != t ==> At(Without(m, t), u) == At(m, u)
  {
  }

  /** Taking one of the keys still to do off the list adds its entry to the slice. */
  lemma {:induction false} AtRestore<K, V>(m: map<(string, K), V>, todo: set<(string, K)>, t: string, k: K)
    requires (t, k) in m && (t, k) in todo
    ensures At(m - (todo - {(t, k)}), t) == At(m - todo, t)[k := m[(t, k)]]
    ensures k !in At(m - todo, t)
  {
    var a, b := At(m - (todo - {(t, k)}), t), At(m - todo, t)[k := m[(t, k)]];
    forall j ensures j in a <==> j in b {
      AtLookup(m - (todo - {(t, k)}), t, j);
      AtLookup(m - todo, t, j);
    }
    forall j | j in a ensures a[j] == b[j] {
      AtLookup(m - (todo - {(t, k)}), t, j);
      AtLookup(m - todo, t, j);
    }
    AtLookup(m - todo, t, k);
  }

  /** The keys a tenant has in the map. */
  function KeysOf<K(==), V>(m: map<(string, K), V>, t: string): set<(string, K)> {
    set p | p in m && p.0 == t
  }

  lemma {:induction false} NothingDone<K, V>(m: map<(string, K), V>, t: string)
    ensures At(m - KeysOf(m, t), t) == map[]
  {
  }

  /** Every pair of the list is an entry of the tenant's. */
  ghost predicate AreEntries<K, V>(list: seq<(K, V)>, m: map<(string, K), V>, t: string) {
    forall i :: 0 <= i < |list| ==> (t, list[i].0) in m && m[(t, list[i].0)] == list[i].1
  }

  /** A tenant's entries, in whatever order the map yields them. */
  method Entries<K(==), V>(m: map<(string, K), V>, t: string) returns (list: seq<(K, V)>)
    ensures Index(list) == At(m, t) && AreEntries(list, m, t)
  {
    list := [];
    var todo := KeysOf(m, t);
    NothingDone(m, t);
    while todo != {}
      invariant todo <= KeysOf(m, t)
      invariant Index(list) == At(m - todo, t) && AreEntries(list, m, t)
    {
      var p :| p in todo;
      OneDone(m, todo, t, list, p);
      list := list + [(p.1, m[p])];
      todo := todo - {p};
    }
    assert m - {} == m;
  }

  lemma {:induction false} OneDone<K, V>(m: map<(string, K), V>, todo: set<(string, K)>, t: string,
                                         list: seq<(K, V)>, p: (string, K))
    requires p in todo && todo <= KeysOf(m, t)
    requires Index(list) == At(m - todo, t) && AreEntries(list, m, t)
    ensures Index(list + [(p.1, m[p])]) == At(m - (todo - {p}), t) && AreEntries(list + [(p.1, m[p])], m, t)
  {
    assert p == (t, p.1);
    AtRestore(m, todo, t, p.1);
    IndexPush(list, (p.1, m[p]));
  }

  /** The two maps differ at most in this tenant's entries. */
  ghost predicate SameElsewhere<K, V>(a: map<(string, K), V>, b: map<(string, K), V>, t: string) {
    forall u :: u != t ==> At(a, u) == At(b, u)
  }

  lemma {:induction false} StillSameElsewhere<K, V>(r: map<(string, K), V>, m: map<(string, K), V>, t: string,
                                                    k: K, v: V)
    requires SameElsewhere(r, m, t)
    ensures SameElsewhere(r[(t, k) := v], m, t)
  {
    AtUpdateElsewhere(r, t, k, v);
  }

  lemma {:induction false} OneInserted<K, V>(r: map<(string, K), V>, t: string, xs: seq<(K, V)>, x: (K, V))
    requires At(r, t) == Index(xs)
    ensures At(r[(t, x.0) := x.1], t) == Index(xs + [x])
  {
    AtUpdate(r, t, x.0, x.1);
    IndexPush(xs, x);
  }

  lemma {:induction false} AtNothing<K, V>(m: map<(string, K), V>, t: string)
    requires m == map[]
    ensures At(m, t) == map[]
  {
  }

  /** Replace, never merge: the tenant's entries go, and the loaded ones are inserted. */
  method Refill<K(==), V>(m: map<(string, K), V>, t: string, list: seq<(K, V)>) returns (r: map<(string, K), V>)
    ensures At(r, t) == Index(list)
    ensures SameElsewhere(r, m, t)
  {
    AtWithout(m, t);
    r := Without(m, t);
    for i := 0 to |list|
      invariant At(r, t) == Index(list[..i])
      invariant SameElsewhere(r, m, t)
    {
      var (k, v) := list[i];
      OneInserted(r, t, list[..i], list[i]);
      assert list[..i + 1] == list[..i] + [list[i]];
      StillSameElsewhere(r, m, t, k, v);
      r := r[(t, k) := v];
    }
    assert list[..|list|] == list;
  }

  /** Where an entry of the new map came from: the old map, or the tenant's new slice. */
  lemma {:induction false} Origin<K, V>(r: map<(string, K), V>, m: map<(string, K), V>, t: string, p: (string, K))
    requires p in r && SameElsewhere(r, m, t)
    ensures p.0 == t ==> p.1 in At(r, t) && At(r, t)[p.1] == r[p]
    ensures p.0 != t ==> p in m && m[p] == r[p]
  {
    AtLookup(r, p.0, p.1);
    AtLookup(m, p.0, p.1);
  }
}
