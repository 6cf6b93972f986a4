/** Maps given by their keys and a function, and sums of a weight over the entries of a map. */
module Maps {

  /** The map that sends every key of a set to its value under `f`. */
  ghost function MapOf<K, V>(keys: set<K>, f: K --> V): (m: map<K, V>)
    requires forall k :: k in keys ==> f.requires(k)
    ensures m.Keys == keys
    ensures forall k :: k in m ==> m[k] == f(k)
    decreases |keys|
  {
    if keys == {} then map[]
    else
      var k :| k in keys;
      MapOf(keys - {k}, f)[k := f(k)]
  }

  /** The sum of a weight over a finite set. */
  ghost function SetSum<T>(s: set<T>, f: T -> int): int {
    if s == {} then 0
    else
      var x :| x in s;
      f(x) + SetSum(s - {x}, f)
  }

  /** Any element may be taken out first. */
  lemma {:induction false} SetSumRemove<T>(s: set<T>, f: T -> int, x: T)
    requires x in s
    ensures SetSum(s, f) == f(x) + SetSum(s - {x}, f)
    decreases |s|
  {
    var y :| y in s && SetSum(s, f) == f(y) + SetSum(s - {y}, f);
    if y != x {
      SetSumRemove(s - {y}, f, x);
      SetSumRemove(s - {x}, f, y);
      assert s - {y} - {x} == s - {x} - {y};
    }
  }

  lemma {:induction false} SetSumAdd<T>(s: set<T>, f: T -> int, x: T)
    requires x !in s
    ensures SetSum(s + {x}, f) == SetSum(s, f) + f(x)
  {
    SetSumRemove(s + {x}, f, x);
    assert s + {x} - {x} == s;
  }

  lemma {:induction false} SetSumOfTwo<T>(x: T, y: T, f: T -> int)
    requires x != y
    ensures SetSum({x, y}, f) == f(x) + f(y)
  {
    SetSumRemove({x, y}, f, x);
    SetSumRemove({y}, f, y);
    assert {x, y} - {x} == {y} && {y} - {y} == {};
  }

  lemma {:induction false} SetSumSame<T>(s: set<T>, f: T -> int, g: T -> int)
    requires forall x :: x in s ==> f(x) == g(x)
    ensures SetSum(s, f) == SetSum(s, g)
    decreases |s|
  {
    if s != {} {
      var x :| x in s;
      SetSumRemove(s, f, x);
      SetSumRemove(s, g, x);
      SetSumSame(s - {x}, f, g);
    }
  }

  function EntryWeight<K, V>(m: map<K, V>, f: (K, V) -> int): K -> int {
    (k: K) => if k in m then f(k, m[k]) else 0
  }

  /** The sum of a weight over the entries of a finite map. */
  ghost function Sum<K, V>(m: map<K, V>, f: (K, V) -> int): int {
    SetSum(m.Keys, EntryWeight(m, f))
  }

  lemma {:induction false} SumRemove<K, V>(m: map<K, V>, f: (K, V) -> int, k: K)
    requires k in m
    ensures Sum(m, f) == f(k, m[k]) + Sum(m - {k}, f)
  {
    SetSumRemove(m.Keys, EntryWeight(m, f), k);
    assert (m - {k}).Keys == m.Keys - {k};
    SetSumSame(m.Keys - {k}, EntryWeight(m, f), EntryWeight(m - {k}, f));
  }

  lemma {:induction false} SumInsert<K, V>(m: map<K, V>, f: (K, V) -> int, k: K, v: V)
    requires k !in m
    ensures Sum(m[k := v], f) == Sum(m, f) + f(k, v)
  {
    SumRemove(m[k := v], f, k);
    assert m[k := v] - {k} == m;
  }

  lemma {:induction false} SumUpdate<K, V>(m: map<K, V>, f: (K, V) -> int, k: K, v: V)
    requires k in m
    ensures Sum(m[k := v], f) == Sum(m, f) - f(k, m[k]) + f(k, v)
  {
    SumRemove(m[k := v], f, k);
    SumRemove(m, f, k);
    assert m[k := v] - {k} == m - {k};
  }

  lemma {:induction false} SumNonNegative<K, V>(m: map<K, V>, f: (K, V) -> int)
    requires forall k :: k in m ==> f(k, m[k]) >= 0
    ensures Sum(m, f) >= 0
    decreases |m|
  {
    if m != map[] {
      var k :| k in m;
      SumRemove(m, f, k);
      SumNonNegative(m - {k}, f);
    }
  }

  lemma {:induction false} SumZero<K, V>(m: map<K, V>, f: (K, V) -> int)
    requires forall k :: k in m ==> f(k, m[k]) == 0
    ensures Sum(m, f) == 0
    decreases |m|
  {
    if m != map[] {
      var k :| k in m;
      SumRemove(m, f, k);
      SumZero(m - {k}, f);
    }
  }

  lemma {:induction false} NotAmongOthers<L, K>(key: map<L, K>, x: L, k: K)
    requires x in key && k != key[x] && k !in (key - {x}).Values
    ensures k !in key.Values
  {
    forall y | y in key ensures key[y] != k {
      if y != x {
        assert y in key - {x} && (key - {x})[y] == key[y];
      }
    }
  }

  /**
   * Relabelling: when `key` embeds `small` into `big`, weights agree along it, and every entry of
   * `big` that it misses weighs nothing, both sums are equal.
   */
  lemma {:induction false} SumRelabel<K, V, L, W>(big: map<K, V>, f: (K, V) -> int, small: map<L, W>, g: (L, W) -> int,
      key: map<L, K>)
    requires key.Keys == small.Keys
    requires forall x :: x in small ==> key[x] in big && f(key[x], big[key[x]]) == g(x, small[x])
    requires forall x, y :: x in small && y in small && key[x] == key[y] ==> x == y
    requires forall k :: k in big && k !in key.Values ==> f(k, big[k]) == 0
    ensures Sum(big, f) == Sum(small, g)
    decreases |small|
  {
    if small == map[] {
      SumZero(big, f);
    } else {
      var x :| x in small;
      forall k | k in big - {key[x]} && k !in (key - {x}).Values ensures f(k, big[k]) == 0 {
        NotAmongOthers(key, x, k);
      }
      SumRelabel(big - {key[x]}, f, small - {x}, g, key - {x});
      SumRemove(big, f, key[x]);
      SumRemove(small, g, x);
    }
  }

  /** Entries outside `small` that weigh nothing may be left out. */
  lemma {:induction false} SumRestrict<K(!new), V>(big: map<K, V>, f: (K, V) -> int, small: map<K, V>, g: (K, V) -> int)
    requires forall k :: k in small ==> k in big && small[k] == big[k]
    requires forall k :: k in big ==> f(k, big[k]) == if k in small then g(k, big[k]) else 0
    ensures Sum(big, f) == Sum(small, g)
  {
    var key := MapOf(small.Keys, (k: K) => k);
    forall k | k in small ensures k in key.Values {
      assert key[k] == k;
    }
    SumRelabel(big, f, small, g, key);
  }
}
