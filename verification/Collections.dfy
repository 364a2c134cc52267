/** Sums over maps, and the two list edits the source performs on its queues. */
module Collections {

  /** The total of a finite map's values. */
  ghost function SumMap<K>(m: map<K, nat>): nat
  {
    if m == map[] then 0 else
      var k :| k in m;
      m[k] + SumMap(m - {k})
  }

  /** Any key may be split off a sum, whichever one the definition picks. */
  lemma {:induction false} SumMapRemove<K>(m: map<K, nat>, k: K)
    requires k in m
    ensures SumMap(m) == m[k] + SumMap(m - {k})
    decreases |m|
  {
    var p :| p in m && SumMap(m) == m[p] + SumMap(m - {p});
    if p != k {
      SumMapRemove(m - {p}, k);
      SumMapRemove(m - {k}, p);
      assert m - {p} - {k} == m - {k} - {p};
    }
  }

  lemma SumMapAdd<K>(m: map<K, nat>, k: K, v: nat)
    requires k !in m
    ensures SumMap(m[k := v]) == v + SumMap(m)
  {
    SumMapRemove(m[k := v], k);
    assert m[k := v] - {k} == m;
  }

  lemma SumMapUpdate<K>(m: map<K, nat>, k: K, v: nat)
    requires k in m
    ensures SumMap(m[k := v]) + m[k] == SumMap(m) + v
  {
    SumMapRemove(m, k);
    SumMapRemove(m[k := v], k);
    assert m[k := v] - {k} == m - {k};
  }

  /** A map whose values are at most 1 sums to the number of keys valued 1. */
  lemma {:induction false} SumMapCounts<K>(m: map<K, nat>)
    requires forall k :: k in m ==> m[k] <= 1
    ensures SumMap(m) == |set k | k in m && m[k] == 1|
    decreases |m|
  {
    var ones := set k | k in m && m[k] == 1;
    if m != map[] {
      var p :| p in m;
      SumMapRemove(m, p);
      SumMapCounts(m - {p});
      var rest := set k | k in m - {p} && (m - {p})[k] == 1;
      assert ones == if m[p] == 1 then rest + {p} else rest;
    }
  }

  lemma MapRemoveSize<K, V>(m: map<K, V>, k: K)
    requires k in m
    ensures |m - {k}| == |m| - 1
  {
    assert (m - {k}).Keys == m.Keys - {k};
  }

  lemma MapInsertSize<K, V>(m: map<K, V>, k: K, v: V)
    requires k !in m
    ensures |m[k := v]| == |m| + 1
  {
    assert m[k := v].Keys == m.Keys + {k};
  }

  lemma MapUpdateSize<K, V>(m: map<K, V>, k: K, v: V)
    requires k in m
    ensures |m[k := v]| == |m|
  {
    assert m[k := v].Keys == m.Keys;
  }

  ghost predicate NoDuplicates<T>(s: seq<T>) {
    forall i, j :: 0 <= i < j < |s| ==> s[i] != s[j]
  }

  /** `s` lists every element of `keys` exactly once. */
  ghost predicate Lists<T>(s: seq<T>, keys: set<T>) {
    if s == [] then keys == {}
    else s[0] in keys && Lists(s[1..], keys - {s[0]})
  }

  lemma {:induction false} ListsFacts<T>(s: seq<T>, keys: set<T>)
    requires Lists(s, keys)
    ensures NoDuplicates(s)
    ensures forall x :: x in s <==> x in keys
    ensures |s| == |keys|
  {
    if s != [] {
      ListsFacts(s[1..], keys - {s[0]});
      assert s == [s[0]] + s[1..];
    }
  }

  lemma {:induction false} ListsIntro<T>(s: seq<T>, keys: set<T>)
    requires NoDuplicates(s)
    requires forall x :: x in s <==> x in keys
    ensures Lists(s, keys)
  {
    if s != [] {
      assert s == [s[0]] + s[1..];
      assert s[0] !in s[1..];
      ListsIntro(s[1..], keys - {s[0]});
    }
  }

  /** `retain(|x| x != id)`. */
  function Without<T(==,!new)>(s: seq<T>, id: T): (r: seq<T>)
    ensures forall x :: x in r <==> x in s && x != id
    ensures |r| <= |s|
  {
    if s == [] then []
    else if s[0] == id then Without(s[1..], id)
    else [s[0]] + Without(s[1..], id)
  }

  lemma {:induction false} WithoutAbsent<T(!new)>(s: seq<T>, id: T)
    requires id !in s
    ensures Without(s, id) == s
  {
    if s != [] {
      assert s[0] in s;
      WithoutAbsent(s[1..], id);
    }
  }

  /** Removing an element keeps every other element in its order. */
  lemma {:induction false} WithoutNoDuplicates<T(!new)>(s: seq<T>, id: T)
    requires NoDuplicates(s)
    ensures NoDuplicates(Without(s, id))
    ensures id in s ==> |Without(s, id)| == |s| - 1
  {
    if s != [] {
      WithoutNoDuplicates(s[1..], id);
      assert s[0] !in s[1..];
      if s[0] == id {
        WithoutAbsent(s[1..], id);
      }
    }
  }

  /** The elements of `s` that lie in `keys`, in order. */
  ghost function Keep<T(!new)>(s: seq<T>, keys: set<T>): (r: seq<T>)
    ensures forall x :: x in r <==> x in s && x in keys
  {
    if s == [] then []
    else if s[0] in keys then [s[0]] + Keep(s[1..], keys)
    else Keep(s[1..], keys)
  }

  lemma {:induction false} KeepAll<T(!new)>(s: seq<T>, keys: set<T>)
    requires forall x :: x in s ==> x in keys
    ensures Keep(s, keys) == s
  {
    if s != [] {
      assert s[0] in s;
      KeepAll(s[1..], keys);
    }
  }

  /** Dropping one more key from the filter is one more `Without`. */
  lemma {:induction false} KeepWithout<T(!new)>(s: seq<T>, keys: set<T>, id: T)
    ensures Keep(s, keys - {id}) == Without(Keep(s, keys), id)
  {
    if s != [] {
      KeepWithout(s[1..], keys, id);
    }
  }

  lemma {:induction false} KeepNoDuplicates<T(!new)>(s: seq<T>, keys: set<T>)
    requires NoDuplicates(s)
    ensures NoDuplicates(Keep(s, keys))
  {
    if s != [] {
      assert s[0] !in s[1..];
      KeepNoDuplicates(s[1..], keys);
    }
  }

  /** `s` turned so that it starts at index `k`. */
  ghost function Rotated<T>(s: seq<T>, k: nat): seq<T>
    requires k <= |s|
  {
    s[k..] + s[..k]
  }

  lemma {:induction false} WithoutAt<T(!new)>(s: seq<T>, k: nat)
    requires NoDuplicates(s) && k < |s|
    ensures Without(s, s[k]) == s[..k] + s[k + 1..]
  {
    if k == 0 {
      assert s[0] !in s[1..];
      WithoutAbsent(s[1..], s[0]);
    } else {
      WithoutAt(s[1..], k - 1);
      assert s[..k] + s[k + 1..] == [s[0]] + (s[1..][..k - 1] + s[1..][k..]);
    }
  }

  ghost predicate Turned<T>(s: seq<T>, r: seq<T>) {
    exists k | 0 <= k <= |s| :: r == Rotated(s, k)
  }

  lemma TurnOf<T>(s: seq<T>, r: seq<T>) returns (k: nat)
    requires Turned(s, r)
    ensures k <= |s| && r == Rotated(s, k)
  {
    k :| 0 <= k <= |s| && r == Rotated(s, k);
  }

  /** Moving the front of a turned list to its back turns it once more. */
  lemma RotatedStep<T>(s: seq<T>, k: nat) returns (next: nat)
    requires k <= |s| && s != []
    ensures next <= |s|
    ensures Rotated(s, next) == Rotated(s, k)[1..] + [Rotated(s, k)[0]]
  {
    next := if k == |s| then 1 else k + 1;
  }

  /** Dropping the front of a turned list drops that element from the list. */
  lemma RotatedDrop<T(!new)>(s: seq<T>, k: nat) returns (next: nat)
    requires k <= |s| && s != [] && NoDuplicates(s)
    ensures next <= |Without(s, Rotated(s, k)[0])|
    ensures Rotated(Without(s, Rotated(s, k)[0]), next) == Rotated(s, k)[1..]
  {
    next := if k == |s| then 0 else k;
    WithoutAt(s, next);
  }

  lemma ListsWithout<T(!new)>(s: seq<T>, keys: set<T>, id: T)
    requires Lists(s, keys)
    ensures Lists(Without(s, id), keys - {id})
  {
    ListsFacts(s, keys);
    WithoutNoDuplicates(s, id);
    ListsIntro(Without(s, id), keys - {id});
  }

  lemma ListsAtEnds<T>(s: seq<T>, keys: set<T>, id: T)
    requires NoDuplicates(s) && (forall x :: x in s <==> x in keys) && id !in keys
    ensures Lists(s + [id], keys + {id}) && Lists([id] + s, keys + {id})
  {
    hide Lists;
    assert id !in s;
    ListsIntro(s + [id], keys + {id});
    ListsIntro([id] + s, keys + {id});
  }

  /** Moving an element to either end, or adding a new one there. */
  lemma ListsMove<T(!new)>(s: seq<T>, keys: set<T>, id: T)
    requires Lists(s, keys)
    ensures Lists(Without(s, id) + [id], keys + {id})
    ensures Lists([id] + Without(s, id), keys + {id})
    ensures id !in keys ==> Without(s, id) == s
  {
    ListsFacts(s, keys);
    WithoutNoDuplicates(s, id);
    hide Without;
    hide Lists;
    ListsAtEnds(Without(s, id), keys - {id}, id);
    assert keys - {id} + {id} == keys + {id};
    if id !in keys {
      WithoutAbsent(s, id);
    }
  }

  /** The front of a list without duplicates occurs nowhere else on it. */
  lemma ListsFront<T(!new)>(s: seq<T>, keys: set<T>)
    requires Lists(s, keys) && s != []
    ensures Without(s, s[0]) == s[1..] == Without(s[1..], s[0])
    ensures Lists(s[1..] + [s[0]], keys)
  {
    ListsFacts(s, keys);
    assert s[0] !in s[1..];
    WithoutAbsent(s[1..], s[0]);
    ListsMove(s, keys, s[0]);
    assert keys + {s[0]} == keys;
  }
}
