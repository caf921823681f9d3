/**
  A Python `dict` as the list of its items in insertion order: assigning to a present key keeps
  the key where it first went in and replaces its value, assigning to a new key appends it.
*/
module PyDict {
  import opened Outcomes

  type Dict<K, V> = seq<(K, V)>

  /** `list(d.keys())`. */
  function Keys<K, V>(d: Dict<K, V>): (ks: seq<K>)
    ensures |ks| == |d|
  {
    if |d| == 0 then [] else [d[0].0] + Keys(d[1..])
  }

  /** `list(d.values())`. */
  function Values<K, V>(d: Dict<K, V>): (vs: seq<V>)
    ensures |vs| == |d|
  {
    if |d| == 0 then [] else [d[0].1] + Values(d[1..])
  }

  predicate Distinct<T(==)>(xs: seq<T>) {
    forall i, j :: 0 <= i < j < |xs| ==> xs[i] != xs[j]
  }

  /** `d.get(k)`. */
  function Lookup<K(==), V>(d: Dict<K, V>, k: K): Option<V> {
    if |d| == 0 then None else if d[0].0 == k then Some(d[0].1) else Lookup(d[1..], k)
  }

  /** `d[k] = v`. */
  function Assign<K(==), V>(d: Dict<K, V>, k: K, v: V): Dict<K, V> {
    if |d| == 0 then [(k, v)]
    else if d[0].0 == k then [(k, v)] + d[1..]
    else [d[0]] + Assign(d[1..], k, v)
  }

  /** The keys of a list in order of first occurrence: the key order a dict built from it has. */
  function Dedup<T(==)>(xs: seq<T>): seq<T> {
    if |xs| == 0 then []
    else
      var p := Dedup(xs[..|xs| - 1]);
      if xs[|xs| - 1] in p then p else p + [xs[|xs| - 1]]
  }

  lemma {:induction false} LookupKeys<K, V>(d: Dict<K, V>, k: K)
    ensures Lookup(d, k).Some? <==> k in Keys(d)
  {
    if |d| > 0 {
      LookupKeys(d[1..], k);
    }
  }

  /** After `d[k] = v`, `k` maps to `v` and every other key keeps its value. */
  lemma {:induction false} AssignLookup<K, V>(d: Dict<K, V>, k: K, v: V, k2: K)
    ensures Lookup(Assign(d, k, v), k2) == if k2 == k then Some(v) else Lookup(d, k2)
  {
    if |d| > 0 && d[0].0 != k {
      AssignLookup(d[1..], k, v, k2);
    }
  }

  /** `d[k] = v` leaves the key order alone when `k` is present and appends `k` otherwise. */
  lemma {:induction false} AssignKeys<K, V>(d: Dict<K, V>, k: K, v: V)
    ensures Keys(Assign(d, k, v)) == if k in Keys(d) then Keys(d) else Keys(d) + [k]
  {
    if |d| > 0 {
      if d[0].0 != k {
        AssignKeys(d[1..], k, v);
        assert Keys(d) == [d[0].0] + Keys(d[1..]);
      }
    }
  }

  /** A dict never holds a key twice. */
  lemma AssignDistinct<K, V>(d: Dict<K, V>, k: K, v: V)
    requires Distinct(Keys(d))
    ensures Distinct(Keys(Assign(d, k, v)))
  {
    AssignKeys(d, k, v);
  }

  lemma {:induction false} DedupDistinct<T>(xs: seq<T>)
    ensures Distinct(Dedup(xs))
    ensures forall x :: x in Dedup(xs) <==> x in xs
  {
    if |xs| > 0 {
      DedupDistinct(xs[..|xs| - 1]);
      assert xs == xs[..|xs| - 1] + [xs[|xs| - 1]];
    }
  }

  /** In a dict, `list(d.values())[i]` is the value of `list(d.keys())[i]`. */
  lemma {:induction false} ValuesLookup<K, V>(d: Dict<K, V>, i: nat)
    requires Distinct(Keys(d)) && i < |d|
    ensures Lookup(d, Keys(d)[i]) == Some(Values(d)[i])
  {
    if i > 0 {
      assert Keys(d)[i] == Keys(d[1..])[i - 1];
      assert Keys(d)[0] != Keys(d)[i];
      assert Distinct(Keys(d[1..])) by {
        forall a, b | 0 <= a < b < |d| - 1 ensures Keys(d[1..])[a] != Keys(d[1..])[b] {
          assert Keys(d[1..])[a] == Keys(d)[a + 1] && Keys(d[1..])[b] == Keys(d)[b + 1];
        }
      }
      ValuesLookup(d[1..], i - 1);
    }
  }

  /** Removing repeats from a list without repeats changes nothing. */
  lemma {:induction false} DedupOfDistinct<T>(xs: seq<T>)
    requires Distinct(xs)
    ensures Dedup(xs) == xs
  {
    if |xs| > 0 {
      var init := xs[..|xs| - 1];
      DedupOfDistinct(init);
      assert xs == init + [xs[|xs| - 1]];
    }
  }

  /** Extending a list by one element extends its repeat-free version the same way `d[k] = v` extends the keys. */
  lemma DedupSnoc<T>(xs: seq<T>, x: T)
    ensures Dedup(xs + [x]) == if x in xs then Dedup(xs) else Dedup(xs) + [x]
  {
    assert (xs + [x])[..|xs + [x]| - 1] == xs;
    DedupDistinct(xs);
  }

  /** Removing repeats first and then again after appending gives what removing them once gives. */
  lemma {:induction false} DedupAppend<T>(xs: seq<T>, ys: seq<T>)
    ensures Dedup(Dedup(xs) + ys) == Dedup(xs + ys)
  {
    DedupDistinct(xs);
    if |ys| == 0 {
      assert Dedup(xs) + ys == Dedup(xs);
      assert xs + ys == xs;
      DedupOfDistinct(Dedup(xs));
    } else {
      var init := ys[..|ys| - 1];
      var y := ys[|ys| - 1];
      DedupAppend(xs, init);
      assert Dedup(xs) + ys == (Dedup(xs) + init) + [y];
      assert xs + ys == (xs + init) + [y];
      DedupSnoc(Dedup(xs) + init, y);
      DedupSnoc(xs + init, y);
    }
  }
}
