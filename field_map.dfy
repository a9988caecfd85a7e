/**
 * A JavaScript plain object used as a map from string keys to values, as
 * `createGraphqlMethods` builds its field map: keys keep the order of their
 * first insertion, and assigning to a key that is already present replaces
 * its value where it stands. `Object.assign(target, source)` assigns the
 * source's keys one by one, in the source's order.
 */
module FieldMap {
  import opened Wrappers

  datatype Entry<V> = Entry(key: string, value: V)

  /** An object's own properties, in enumeration order. */
  type Fields<V> = seq<Entry<V>>

  function Keys<V>(f: Fields<V>): (ks: seq<string>)
    ensures |ks| == |f|
    ensures forall i :: 0 <= i < |f| ==> ks[i] == f[i].key
  {
    seq(|f|, i requires 0 <= i < |f| => f[i].key)
  }

  predicate NoDuplicates(ks: seq<string>) {
    forall i, j :: 0 <= i < j < |ks| ==> ks[i] != ks[j]
  }

  /** Every object satisfies this: a key names one property. */
  predicate UniqueKeys<V>(f: Fields<V>) {
    NoDuplicates(Keys(f))
  }

  /** The object read as a map: a key's value is that of its last entry. */
  function AsMap<V>(f: Fields<V>): map<string, V> {
    if f == [] then map[]
    else AsMap(f[..|f| - 1])[f[|f| - 1].key := f[|f| - 1].value]
  }

  /** The object's keys are exactly those of its entries. */
  lemma {:induction false} AsMapDomain<V>(f: Fields<V>)
    ensures forall k :: k in AsMap(f) <==> k in Keys(f)
  {
    if f != [] {
      AsMapDomain(f[..|f| - 1]);
      assert Keys(f) == Keys(f[..|f| - 1]) + [f[|f| - 1].key];
    }
  }

  /** The position of `k` among the keys, if it is one. */
  function IndexOf<V>(f: Fields<V>, k: string): (r: Option<nat>)
    ensures r.None? <==> k !in Keys(f)
    ensures r.Some? ==> r.value < |f| && f[r.value].key == k
  {
    if f == [] then None
    else if f[|f| - 1].key == k then Some(|f| - 1)
    else
      assert Keys(f) == Keys(f[..|f| - 1]) + [f[|f| - 1].key];
      IndexOf(f[..|f| - 1], k)
  }

  /** The keys after inserting `k`: unchanged if present, `k` last otherwise. */
  function AddKey(ks: seq<string>, k: string): seq<string> {
    if k in ks then ks else ks + [k]
  }

  /** The keys after inserting each of `more` in turn. */
  function AppendNew(ks: seq<string>, more: seq<string>): seq<string>
    decreases |more|
  {
    if more == [] then ks else AddKey(AppendNew(ks, more[..|more| - 1]), more[|more| - 1])
  }

  /** Each key once, in the order of its first occurrence. */
  function FirstOccurrences(ks: seq<string>): seq<string> {
    AppendNew([], ks)
  }

  /** Inserting keys keeps those present where they are, adds each new one once, and adds nothing else. */
  lemma {:induction false} AppendNewSpec(ks: seq<string>, more: seq<string>)
    requires NoDuplicates(ks)
    ensures NoDuplicates(AppendNew(ks, more))
    ensures |ks| <= |AppendNew(ks, more)| && AppendNew(ks, more)[..|ks|] == ks
    ensures forall k :: k in AppendNew(ks, more) <==> k in ks || k in more
    decreases |more|
  {
    if more != [] {
      var init := more[..|more| - 1];
      AppendNewSpec(ks, init);
      assert more == init + [more[|more| - 1]];
    }
  }

  lemma {:induction false} AppendNewConcat(ks: seq<string>, a: seq<string>, b: seq<string>)
    ensures AppendNew(ks, a + b) == AppendNew(AppendNew(ks, a), b)
    decreases |b|
  {
    if b == [] {
      assert a + b == a;
    } else {
      assert (a + b)[..|a + b| - 1] == a + b[..|b| - 1];
      assert (a + b)[|a + b| - 1] == b[|b| - 1];
      AppendNewConcat(ks, a, b[..|b| - 1]);
    }
  }

  /** Replacing the value of an entry whose key no later entry repeats updates that key. */
  lemma {:induction false} AsMapReplace<V>(f: Fields<V>, i: nat, v: V)
    requires i < |f|
    requires forall j :: i < j < |f| ==> f[j].key != f[i].key
    ensures AsMap(f[i := Entry(f[i].key, v)]) == AsMap(f)[f[i].key := v]
  {
    var g := f[i := Entry(f[i].key, v)];
    var n := |f|;
    var init := f[..n - 1];
    if i < n - 1 {
      assert g[..n - 1] == init[i := Entry(f[i].key, v)];
      AsMapReplace(init, i, v);
      UpdateCommutes(AsMap(init), f[n - 1].key, f[n - 1].value, f[i].key, v);
    } else {
      assert g[..n - 1] == init;
    }
  }

  lemma UpdateCommutes<V>(m: map<string, V>, a: string, x: V, b: string, y: V)
    requires a != b
    ensures m[b := y][a := x] == m[a := x][b := y]
  {
  }

  /** `obj[k] = v`. */
  function Put<V>(f: Fields<V>, k: string, v: V): (r: Fields<V>)
    requires UniqueKeys(f)
    ensures UniqueKeys(r)
    ensures AsMap(r) == AsMap(f)[k := v]
    ensures Keys(r) == AddKey(Keys(f), k)
  {
    match IndexOf(f, k)
    case Some(i) =>
      AsMapReplace(f, i, v);
      assert Keys(f[i := Entry(k, v)]) == Keys(f);
      f[i := Entry(k, v)]
    case None =>
      assert Keys(f + [Entry(k, v)]) == Keys(f) + [k];
      assert (f + [Entry(k, v)])[..|f|] == f;
      f + [Entry(k, v)]
  }

  lemma UnionUpdate<V>(a: map<string, V>, b: map<string, V>, k: string, v: V)
    ensures (a + b)[k := v] == a + b[k := v]
  {
  }

  /** `Object.assign(target, source)`: the source's entries assigned in order, so a later value of a key wins. */
  function Assign<V>(target: Fields<V>, source: Fields<V>): (r: Fields<V>)
    requires UniqueKeys(target)
    ensures UniqueKeys(r)
    ensures AsMap(r) == AsMap(target) + AsMap(source)
    ensures Keys(r) == AppendNew(Keys(target), Keys(source))
    decreases |source|
  {
    if source == [] then
      assert AsMap(target) + AsMap(source) == AsMap(target);
      target
    else
      var init, last := source[..|source| - 1], source[|source| - 1];
      var prev := Assign(target, init);
      assert Keys(source) == Keys(init) + [last.key];
      UnionUpdate(AsMap(target), AsMap(init), last.key, last.value);
      Put(prev, last.key, last.value)
  }

  /** All keys of a list of objects, object after object. */
  function ConcatKeys<V>(items: seq<Fields<V>>): seq<string> {
    if items == [] then [] else ConcatKeys(items[..|items| - 1]) + Keys(items[|items| - 1])
  }

  /**
   * `items.reduce((result, current) => Object.assign(result, current), {})`:
   * the keys are those of all items in first-occurrence order.
   */
  function Merge<V>(items: seq<Fields<V>>): (r: Fields<V>)
    ensures UniqueKeys(r)
    ensures Keys(r) == FirstOccurrences(ConcatKeys(items))
  {
    if items == [] then []
    else
      var init := items[..|items| - 1];
      AppendNewConcat([], ConcatKeys(init), Keys(items[|items| - 1]));
      Assign(Merge(init), items[|items| - 1])
  }

  /** A key occurs among the concatenated keys exactly when some item has it. */
  lemma {:induction false} ConcatKeysMembers<V>(items: seq<Fields<V>>, k: string)
    ensures k in ConcatKeys(items) <==> exists i :: 0 <= i < |items| && k in Keys(items[i])
  {
    if items != [] {
      var init, last := items[..|items| - 1], items[|items| - 1];
      ConcatKeysMembers(init, k);
      if exists i :: 0 <= i < |init| && k in Keys(init[i]) {
        var i :| 0 <= i < |init| && k in Keys(init[i]);
        assert items[i] == init[i];
      }
      if exists i :: 0 <= i < |items| && k in Keys(items[i]) {
        var i :| 0 <= i < |items| && k in Keys(items[i]);
        if i < |init| {
          assert init[i] == items[i];
        }
      }
    }
  }

  /** A key is in the merged object exactly when some item has it. */
  lemma MergeDomain<V>(items: seq<Fields<V>>, k: string)
    ensures k in AsMap(Merge(items)) <==> exists i :: 0 <= i < |items| && k in Keys(items[i])
  {
    AsMapDomain(Merge(items));
    AppendNewSpec([], ConcatKeys(items));
    ConcatKeysMembers(items, k);
  }

  /** Last write wins: a key takes its value from the last item that has it. */
  lemma {:induction false} MergeLastWins<V>(items: seq<Fields<V>>, j: nat, k: string)
    requires j < |items| && k in AsMap(items[j])
    requires forall i :: j < i < |items| ==> k !in AsMap(items[i])
    ensures k in AsMap(Merge(items)) && AsMap(Merge(items))[k] == AsMap(items[j])[k]
  {
    var init := items[..|items| - 1];
    if j < |items| - 1 {
      MergeLastWins(init, j, k);
    }
  }
}
