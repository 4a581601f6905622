/**
 * Order-preserving filter-map: the shape of "append a row for every input
 * that passes the test" loops and of `dropna` after a per-row `map`.
 */
module Lists {
  import opened Wrappers

  /** Position `k` of `b` is position `|a| + k` of `a + b`. */
  lemma ConcatIndex<T>(a: seq<T>, b: seq<T>, k: nat)
    requires k < |b|
    ensures |a| + k < |a + b| && (a + b)[|a| + k] == b[k]
  {
  }

  /** Apply `f` to each element in order and keep the results that are present. */
  function FilterMap<A, B>(f: A -> Option<B>, xs: seq<A>): seq<B> {
    if xs == [] then []
    else
      var init := FilterMap(f, xs[..|xs| - 1]);
      match f(xs[|xs| - 1])
      case Some(y) => init + [y]
      case None => init
  }

  lemma {:induction false} FilterMapLength<A, B>(f: A -> Option<B>, xs: seq<A>)
    ensures |FilterMap(f, xs)| <= |xs|
    ensures (forall k :: 0 <= k < |xs| ==> f(xs[k]).Some?) ==> |FilterMap(f, xs)| == |xs|
  {
    if xs != [] {
      FilterMapLength(f, xs[..|xs| - 1]);
    }
  }

  /** Exactly the present results of `f` are kept. */
  lemma {:induction false} FilterMapMembership<A, B>(f: A -> Option<B>, xs: seq<A>, y: B)
    ensures y in FilterMap(f, xs) <==> exists k :: 0 <= k < |xs| && f(xs[k]) == Some(y)
  {
    if xs != [] {
      var init := xs[..|xs| - 1];
      FilterMapMembership(f, init, y);
      if exists k :: 0 <= k < |xs| && f(xs[k]) == Some(y) {
        var k :| 0 <= k < |xs| && f(xs[k]) == Some(y);
        if k < |init| { assert init[k] == xs[k]; }
      }
      if exists k :: 0 <= k < |init| && f(init[k]) == Some(y) {
        var k :| 0 <= k < |init| && f(init[k]) == Some(y);
        assert xs[k] == init[k];
      }
    }
  }

  /** Filter-mapping a concatenation concatenates the filter-maps. */
  lemma {:induction false} FilterMapAppend<A, B>(f: A -> Option<B>, xs: seq<A>, ys: seq<A>)
    ensures FilterMap(f, xs + ys) == FilterMap(f, xs) + FilterMap(f, ys)
    decreases |ys|
  {
    if ys == [] {
      assert xs + ys == xs;
    } else {
      var zs := xs + ys;
      assert zs[..|zs| - 1] == xs + ys[..|ys| - 1];
      assert zs[|zs| - 1] == ys[|ys| - 1];
      FilterMapAppend(f, xs, ys[..|ys| - 1]);
    }
  }

  /** One step of a loop that walks `xs` and appends what `f` keeps. */
  lemma FilterMapSnoc<A, B>(f: A -> Option<B>, xs: seq<A>, i: nat)
    requires i < |xs|
    ensures FilterMap(f, xs[..i + 1]) == FilterMap(f, xs[..i]) + (if f(xs[i]).Some? then [f(xs[i]).value] else [])
  {
    assert xs[..i + 1][..i] == xs[..i];
  }

  /** The keys of an association list are pairwise distinct, as a dictionary's are. */
  predicate DistinctKeys<K(==), V>(table: seq<(K, V)>) {
    forall i, j :: 0 <= i < j < |table| ==> table[i].0 != table[j].0
  }

  /** `dict.get(key)` on an association list: the value of the first entry with that key. */
  function Get<K(==), V>(table: seq<(K, V)>, key: K): Option<V> {
    if table == [] then None
    else if table[0].0 == key then Some(table[0].1)
    else Get(table[1..], key)
  }

  /** The lookup misses exactly the absent keys, and with distinct keys finds each entry's own value. */
  lemma {:induction false} GetSpec<K, V>(table: seq<(K, V)>, key: K)
    ensures Get(table, key).None? <==> forall i :: 0 <= i < |table| ==> table[i].0 != key
    ensures DistinctKeys(table) ==> forall i :: 0 <= i < |table| && table[i].0 == key ==> Get(table, key) == Some(table[i].1)
  {
    if table != [] {
      GetSpec(table[1..], key);
      assert forall i :: 1 <= i < |table| ==> table[i] == table[1..][i - 1];
    }
  }
  /** The lookup in a table grown by one entry: earlier entries still win. */
  lemma {:induction false} GetAppend<K, V>(table: seq<(K, V)>, key: K, k: K, v: V)
    ensures Get(table + [(k, v)], key) == if Get(table, key).Some? then Get(table, key) else if k == key then Some(v) else None
  {
    if table != [] {
      assert (table + [(k, v)])[1..] == table[1..] + [(k, v)];
      GetAppend(table[1..], key, k, v);
    }
  }

  /** `d[key] = v` for a key already present: the entry keeps its place and takes the new value. */
  function Put<K(==), V>(table: seq<(K, V)>, key: K, v: V): (r: seq<(K, V)>)
    ensures |r| == |table|
    ensures forall i :: 0 <= i < |table| ==> r[i].0 == table[i].0
  {
    if table == [] then []
    else if table[0].0 == key then [(key, v)] + table[1..]
    else [table[0]] + Put(table[1..], key, v)
  }

  /** After the assignment the key reads back the new value, and every other key reads as before. */
  lemma {:induction false} PutSpec<K, V>(table: seq<(K, V)>, key: K, v: V, other: K)
    ensures Get(Put(table, key, v), key) == if Get(table, key).Some? then Some(v) else None
    ensures other != key ==> Get(Put(table, key, v), other) == Get(table, other)
  {
    if table != [] && table[0].0 != key {
      PutSpec(table[1..], key, v, other);
    }
  }

  /** Assigning a key the value it already has changes nothing. */
  lemma {:induction false} PutSame<K, V>(table: seq<(K, V)>, key: K, v: V)
    requires Get(table, key) == Some(v)
    ensures Put(table, key, v) == table
  {
    if table != [] && table[0].0 != key {
      PutSame(table[1..], key, v);
    }
  }

  /**
   * Concatenate the pieces `f` gives for each element, in order; `f` also
   * sees the element's position. The whole fails as soon as one piece fails,
   * as a loop that raises part-way does.
   */
  function Collect<A, B>(f: (nat, A) -> Option<seq<B>>, xs: seq<A>): Option<seq<B>> {
    if xs == [] then Some([])
    else
      match Collect(f, xs[..|xs| - 1])
      case None => None
      case Some(init) =>
        match f(|xs| - 1, xs[|xs| - 1])
        case None => None
        case Some(piece) => Some(init + piece)
  }

  /** One step of a loop that walks `xs` and appends the piece for the next element. */
  lemma CollectStep<A, B>(f: (nat, A) -> Option<seq<B>>, xs: seq<A>, i: nat)
    requires i < |xs|
    ensures Collect(f, xs[..i + 1]) ==
      match Collect(f, xs[..i])
      case None => None
      case Some(init) => (match f(i, xs[i]) case None => None case Some(piece) => Some(init + piece))
  {
    assert xs[..i + 1][..i] == xs[..i];
  }

  /** The whole fails exactly when the piece of some element fails. */
  lemma {:induction false} CollectFails<A, B>(f: (nat, A) -> Option<seq<B>>, xs: seq<A>)
    ensures Collect(f, xs).None? <==> exists k :: 0 <= k < |xs| && f(k, xs[k]).None?
  {
    if xs != [] {
      var init := xs[..|xs| - 1];
      CollectFails(f, init);
      if exists k :: 0 <= k < |xs| && f(k, xs[k]).None? {
        var k :| 0 <= k < |xs| && f(k, xs[k]).None?;
        if k < |init| { assert init[k] == xs[k]; }
      }
      if exists k :: 0 <= k < |init| && f(k, init[k]).None? {
        var k :| 0 <= k < |init| && f(k, init[k]).None?;
        assert xs[k] == init[k];
      }
    }
  }

  /** What the whole holds is exactly what the pieces hold. */
  lemma {:induction false} CollectMembership<A, B>(f: (nat, A) -> Option<seq<B>>, xs: seq<A>, y: B)
    requires Collect(f, xs).Some?
    ensures y in Collect(f, xs).value <==> exists k :: 0 <= k < |xs| && f(k, xs[k]).Some? && y in f(k, xs[k]).value
  {
    if xs != [] {
      var init := xs[..|xs| - 1];
      CollectMembership(f, init, y);
      if exists k :: 0 <= k < |xs| && f(k, xs[k]).Some? && y in f(k, xs[k]).value {
        var k :| 0 <= k < |xs| && f(k, xs[k]).Some? && y in f(k, xs[k]).value;
        if k < |init| { assert init[k] == xs[k]; }
      }
      if exists k :: 0 <= k < |init| && f(k, init[k]).Some? && y in f(k, init[k]).value {
        var k :| 0 <= k < |init| && f(k, init[k]).Some? && y in f(k, init[k]).value;
        assert xs[k] == init[k];
      }
    }
  }
}
