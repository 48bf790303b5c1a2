/**
  Insertion-ordered dictionaries. The source builds its groupings with
  `reduce` into a plain object (or a `Map`) and reads them back with
  `Object.entries`/`Object.values`, which list keys in the order they were first
  inserted. An association list with that order is the model of such an object.
 */
module Assoc {
  import opened Wrappers
  import opened Seqs

  datatype Entry<K, V> = Entry(key: K, val: V)

  function Keys<K, V>(a: seq<Entry<K, V>>): (ks: seq<K>)
    ensures |ks| == |a|
    ensures forall i :: 0 <= i < |a| ==> ks[i] == a[i].key
  {
    seq(|a|, i requires 0 <= i < |a| => a[i].key)
  }

  /** The value stored under `k` (`obj[k]`), absent as `None`. */
  function Get<K(==), V>(a: seq<Entry<K, V>>, k: K): (r: Option<V>)
    ensures r.None? <==> k !in Keys(a)
    decreases |a|
  {
    if |a| == 0 then None
    else if a[0].key == k then Some(a[0].val)
    else
      assert Keys(a) == [a[0].key] + Keys(a[1..]);
      Get(a[1..], k)
  }

  /**
    `obj[k] = f(obj[k] ?? init)`: updates the entry in place when the key is
    present, appends a new entry otherwise.
   */
  function Upsert<K(==), V>(a: seq<Entry<K, V>>, k: K, init: V, f: V -> V): (r: seq<Entry<K, V>>)
    ensures Keys(r) == if k in Keys(a) then Keys(a) else Keys(a) + [k]
    ensures Get(r, k) == Some(f(Get(a, k).GetOr(init)))
    ensures forall k' :: k' in Keys(a) && k' != k ==> Get(r, k') == Get(a, k')
    decreases |a|
  {
    if |a| == 0 then [Entry(k, f(init))]
    else
      KeysCons(a[0], a[1..]);
      assert a == [a[0]] + a[1..];
      if a[0].key == k then
        KeysCons(Entry(k, f(a[0].val)), a[1..]);
        [Entry(k, f(a[0].val))] + a[1..]
      else
        var rest := Upsert(a[1..], k, init, f);
        KeysCons(a[0], rest);
        [a[0]] + rest
  }

  lemma KeysCons<K, V>(x: Entry<K, V>, rest: seq<Entry<K, V>>)
    ensures Keys([x] + rest) == [x.key] + Keys(rest)
  {
  }

  /**
    The reduce that groups `items` by `keyOf` (items without a key are skipped) and
    folds each group with `step`, starting from `init`.
   */
  function Collect<T, K(==), V>(items: seq<T>, keyOf: T -> Option<K>, init: V, step: (V, T) -> V): seq<Entry<K, V>>
    decreases |items|
  {
    if |items| == 0 then []
    else
      var x := items[|items| - 1];
      var prev := Collect(items[..|items| - 1], keyOf, init, step);
      match keyOf(x)
      case None => prev
      case Some(k) => Upsert(prev, k, init, Apply(step, x))
  }

  /** The step with its item fixed: the update applied to one bucket. */
  function Apply<V, T>(step: (V, T) -> V, x: T): V -> V {
    v => step(v, x)
  }

  /** The keys of the items, in item order, with repetitions. */
  function KeysOf<T, K>(items: seq<T>, keyOf: T -> Option<K>): seq<K>
    decreases |items|
  {
    if |items| == 0 then []
    else
      KeysOf(items[..|items| - 1], keyOf)
      + match keyOf(items[|items| - 1]) case None => [] case Some(k) => [k]
  }

  /** The items whose key is `k`, in order. */
  function Select<T, K(==)>(items: seq<T>, keyOf: T -> Option<K>, k: K): seq<T>
    decreases |items|
  {
    if |items| == 0 then []
    else
      Select(items[..|items| - 1], keyOf, k)
      + (if keyOf(items[|items| - 1]) == Some(k) then [items[|items| - 1]] else [])
  }

  /** Left fold of `step` over `items` from `init`. */
  function Run<T, V>(items: seq<T>, init: V, step: (V, T) -> V): V
    decreases |items|
  {
    if |items| == 0 then init else step(Run(items[..|items| - 1], init, step), items[|items| - 1])
  }

  /**
    The grouping lists each key once, in order of its first occurrence among the
    items (the key order `Object.keys` reports).
   */
  lemma {:induction false} CollectKeys<T, K, V>(items: seq<T>, keyOf: T -> Option<K>, init: V, step: (V, T) -> V)
    ensures Keys(Collect(items, keyOf, init, step)) == Dedup(KeysOf(items, keyOf))
    decreases |items|
  {
    if |items| > 0 {
      var pre := items[..|items| - 1];
      var x := items[|items| - 1];
      CollectKeys(pre, keyOf, init, step);
      match keyOf(x)
      case None =>
        assert KeysOf(items, keyOf) == KeysOf(pre, keyOf);
      case Some(k) =>
        var ks := KeysOf(items, keyOf);
        assert ks == KeysOf(pre, keyOf) + [k];
        assert ks[..|ks| - 1] == KeysOf(pre, keyOf);
    }
  }

  /** Every key of the grouping is listed once. */
  lemma CollectDistinct<T, K, V>(items: seq<T>, keyOf: T -> Option<K>, init: V, step: (V, T) -> V)
    ensures Distinct(Keys(Collect(items, keyOf, init, step)))
  {
    CollectKeys(items, keyOf, init, step);
  }

  /**
    The entry under `k` exists exactly when some item has key `k`, and holds the fold
    of `step` over those items alone, in their original order.
   */
  lemma {:induction false} CollectGet<T, K, V>(items: seq<T>, keyOf: T -> Option<K>, init: V, step: (V, T) -> V, k: K)
    ensures Get(Collect(items, keyOf, init, step), k)
         == if |Select(items, keyOf, k)| == 0 then None else Some(Run(Select(items, keyOf, k), init, step))
    decreases |items|
  {
    if |items| > 0 {
      var pre := items[..|items| - 1];
      var x := items[|items| - 1];
      CollectGet(pre, keyOf, init, step, k);
      var sel := Select(items, keyOf, k);
      if keyOf(x) == Some(k) {
        assert sel == Select(pre, keyOf, k) + [x];
        assert sel[..|sel| - 1] == Select(pre, keyOf, k);
        if |Select(pre, keyOf, k)| == 0 {
          assert Run(sel, init, step) == step(init, x);
        }
      } else {
        assert sel == Select(pre, keyOf, k);
      }
    }
  }

  /** With distinct keys, looking up an entry's key finds that entry. */
  lemma {:induction false} GetAt<K, V>(a: seq<Entry<K, V>>, i: nat)
    requires i < |a|
    requires Distinct(Keys(a))
    ensures Get(a, a[i].key) == Some(a[i].val)
    decreases i
  {
    if i > 0 {
      assert Keys(a[1..]) == Keys(a)[1..];
      GetAt(a[1..], i - 1);
    }
  }

  /** Every item with key `k` is selected under `k`. */
  lemma {:induction false} SelectContains<T, K>(items: seq<T>, keyOf: T -> Option<K>, k: K, i: nat)
    requires i < |items| && keyOf(items[i]) == Some(k)
    ensures items[i] in Select(items, keyOf, k)
    decreases |items|
  {
    if i < |items| - 1 {
      SelectContains(items[..|items| - 1], keyOf, k, i);
    }
  }

  /** `list.push(x)` on the group a value is filed under. */
  function Snoc<T>(xs: seq<T>, x: T): seq<T> {
    xs + [x]
  }

  /** Pushing the items one by one onto an empty list rebuilds them. */
  lemma {:induction false} RunSnoc<T>(items: seq<T>)
    ensures Run(items, [], Snoc) == items
    decreases |items|
  {
    if |items| > 0 {
      RunSnoc(items[..|items| - 1]);
    }
  }

  /** The items selected under `k` are exactly the items whose key is `k`. */
  lemma {:induction false} SelectMember<T, K>(items: seq<T>, keyOf: T -> Option<K>, k: K, x: T)
    ensures x in Select(items, keyOf, k) <==> x in items && keyOf(x) == Some(k)
    decreases |items|
  {
    if |items| > 0 {
      var init := items[..|items| - 1];
      SelectMember(init, keyOf, k, x);
      assert items == init + [items[|items| - 1]];
    }
  }
}
