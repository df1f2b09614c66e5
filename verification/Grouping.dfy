/** Folding the items of a list into one value for every key. */
module Grouping {

  datatype Keyed<H> = Keyed(key: string, item: H)

  /** The items under a key, in list order. */
  function Members<H>(items: seq<Keyed<H>>, key: string): seq<H> {
    if items == [] then []
    else
      var n := |items| - 1;
      Members(items[..n], key) + if items[n].key == key then [items[n].item] else []
  }

  function Fold<V, H>(step: (V, H) -> V, start: V, items: seq<H>): V {
    if items == [] then start
    else
      var n := |items| - 1;
      step(Fold(step, start, items[..n]), items[n])
  }

  function StartAt<V>(values: map<string, V>, key: string, start: V): V {
    if key in values then values[key] else start
  }

  /** The update that one item makes to the values of all keys. */
  function StepAt<V, H>(values: map<string, V>, item: Keyed<H>, step: (V, H) -> V, start: V): map<string, V> {
    values[item.key := step(StartAt(values, item.key, start), item.item)]
  }

  predicate FoldAt<V(==), H>(
    values: map<string, V>, items: seq<Keyed<H>>, step: (V, H) -> V, start: V, key: string)
  {
    && (key in values <==> |Members(items, key)| > 0)
    && (key in values ==> values[key] == Fold(step, start, Members(items, key)))
  }

  /** There is a value for exactly the keys that have items, and it is what those items fold to. */
  ghost predicate FoldsOf<V, H>(values: map<string, V>, items: seq<Keyed<H>>, step: (V, H) -> V, start: V) {
    forall key :: FoldAt(values, items, step, start, key)
  }

  lemma MembersNext<H>(items: seq<Keyed<H>>, item: Keyed<H>, key: string)
    ensures Members(items + [item], key)
            == if item.key == key then Members(items, key) + [item.item] else Members(items, key)
  {
    assert (items + [item])[..|items|] == items;
  }

  lemma FoldNext<V, H>(step: (V, H) -> V, start: V, items: seq<H>, item: H)
    ensures Fold(step, start, items + [item]) == step(Fold(step, start, items), item)
  {
    assert (items + [item])[..|items|] == items;
  }

  lemma FoldsNext<V, H>(
    values: map<string, V>, items: seq<Keyed<H>>, item: Keyed<H>, step: (V, H) -> V, start: V)
    requires FoldsOf(values, items, step, start)
    ensures FoldsOf(StepAt(values, item, step, start), items + [item], step, start)
  {
    forall key ensures FoldAt(StepAt(values, item, step, start), items + [item], step, start, key) {
      assert FoldAt(values, items, step, start, key);
      MembersNext(items, item, key);
      FoldNext(step, start, Members(items, key), item.item);
    }
  }

  // ---------- Keys partition the items ----------

  lemma {:induction false} MemberExactlyWhen<H>(items: seq<Keyed<H>>, key: string, h: H)
    ensures h in Members(items, key) <==> Keyed(key, h) in items
  {
    if items != [] {
      var n := |items| - 1;
      MemberExactlyWhen(items[..n], key, h);
      assert items == items[..n] + [items[n]];
    }
  }

  function CountOver<H>(keys: seq<string>, items: seq<Keyed<H>>): nat {
    if keys == [] then 0 else |Members(items, keys[0])| + CountOver(keys[1..], items)
  }

  predicate DistinctKeys(keys: seq<string>) { forall i, j :: 0 <= i < j < |keys| ==> keys[i] != keys[j] }

  lemma {:induction false} CountNext<H>(keys: seq<string>, items: seq<Keyed<H>>, item: Keyed<H>)
    requires DistinctKeys(keys)
    ensures CountOver(keys, items + [item]) == CountOver(keys, items) + if item.key in keys then 1 else 0
  {
    if keys != [] {
      MembersNext(items, item, keys[0]);
      CountNext(keys[1..], items, item);
      assert keys == [keys[0]] + keys[1..];
    }
  }

  lemma {:induction false} CountNone<H>(keys: seq<string>, items: seq<Keyed<H>>)
    requires items == []
    ensures CountOver(keys, items) == 0
  {
    if keys != [] { CountNone(keys[1..], items); }
  }

  /** No item is lost or counted twice: over all keys the groups hold as many items as the list. */
  lemma {:induction false} GroupsPartition<H>(keys: seq<string>, items: seq<Keyed<H>>)
    requires DistinctKeys(keys) && forall i :: 0 <= i < |items| ==> items[i].key in keys
    ensures CountOver(keys, items) == |items|
  {
    if items == [] {
      CountNone(keys, items);
    } else {
      var n := |items| - 1;
      assert items == items[..n] + [items[n]];
      GroupsPartition(keys, items[..n]);
      CountNext(keys, items[..n], items[n]);
    }
  }
}
