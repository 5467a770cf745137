/**
 * An insertion-ordered map with string keys: the behaviour of a JavaScript `Map`
 * that the game state and the room table rely on (iteration in insertion order,
 * `set` on an existing key keeps its position, `delete` removes it).
 */
module OrderedMaps {
  import opened Wrappers

  datatype OrderedMap<V> = OrderedMap(keys: seq<string>, m: map<string, V>) {

    /** The key list has no repetition and names exactly the keys of the map. */
    ghost predicate Wf() {
      && Distinct(keys)
      && (forall k :: k in keys <==> k in m)
    }

    function Get(k: string): (r: Option<V>)
      ensures r.Some? <==> k in m
      ensures r.Some? ==> r.value == m[k]
    {
      if k in m then Some(m[k]) else None
    }

    /** `Map.prototype.set`: an existing key keeps its place, a new key goes last. */
    function Set(k: string, v: V): (r: OrderedMap<V>)
      ensures r.m == m[k := v]
      ensures k in m ==> r.keys == keys
      ensures k !in m ==> r.keys == keys + [k]
      ensures Wf() ==> r.Wf()
    {
      if k in m then OrderedMap(keys, m[k := v]) else OrderedMap(keys + [k], m[k := v])
    }

    /** `Map.prototype.delete`. */
    function Remove(k: string): (r: OrderedMap<V>)
      requires Wf()
      ensures r.Wf()
      ensures r.m == m - {k}
      ensures forall x :: x in r.keys <==> x in keys && x != k
    {
      OrderedMap(Without(keys, k), m - {k})
    }

    /** `Array.from(map.entries())`: the pairs in insertion order. */
    function Entries(): (es: seq<(string, V)>)
      requires Wf()
      ensures |es| == |keys|
      ensures forall i :: 0 <= i < |es| ==> es[i] == (keys[i], m[keys[i]])
    {
      EntriesOf(keys, m)
    }
  }

  /** No key is listed twice. */
  ghost predicate Distinct(keys: seq<string>) {
    forall i, j :: 0 <= i < j < |keys| ==> keys[i] != keys[j]
  }

  function Empty<V>(): (r: OrderedMap<V>)
    ensures r.Wf() && r.keys == [] && r.m == map[]
  {
    OrderedMap([], map[])
  }

  /** The keys other than `k`, in their original order. */
  function Without(keys: seq<string>, k: string): (r: seq<string>)
    ensures forall x :: x in r <==> x in keys && x != k
    ensures (forall i, j :: 0 <= i < j < |keys| ==> keys[i] != keys[j]) ==>
              (forall i, j :: 0 <= i < j < |r| ==> r[i] != r[j])
  {
    if keys == [] then []
    else if keys[0] == k then Without(keys[1..], k)
    else
      var rest := Without(keys[1..], k);
      assert keys[0] !in keys[1..] ==> keys[0] !in rest;
      [keys[0]] + rest
  }

  function EntriesOf<V>(keys: seq<string>, m: map<string, V>): (es: seq<(string, V)>)
    requires forall k :: k in keys ==> k in m
    ensures |es| == |keys|
    ensures forall i :: 0 <= i < |es| ==> es[i] == (keys[i], m[keys[i]])
  {
    if keys == [] then [] else EntriesOf(keys[..|keys| - 1], m) + [(keys[|keys| - 1], m[keys[|keys| - 1]])]
  }

  /** `new Map(entries)`: entries are set one after the other, so a later duplicate wins
      but keeps the position of the first occurrence. */
  function FromEntries<V>(es: seq<(string, V)>): (r: OrderedMap<V>)
    ensures r.Wf()
  {
    if es == [] then Empty()
    else FromEntries(es[..|es| - 1]).Set(es[|es| - 1].0, es[|es| - 1].1)
  }

  /** Rebuilding a map from its own entries gives back the same map, order included. */
  lemma {:induction false} FromEntriesOfEntries<V>(om: OrderedMap<V>)
    requires om.Wf()
    ensures FromEntries(om.Entries()) == om
    decreases |om.keys|
  {
    if om.keys != [] {
      var n := |om.keys|;
      var last := om.keys[n - 1];
      var es := om.Entries();
      var prefix := DropLast(om);
      FromEntriesOfEntries(prefix);
      EntriesOfDropLast(om);
      assert es[..n - 1] == prefix.Entries();
      assert es[n - 1] == (last, om.m[last]);
      assert FromEntries(es) == FromEntries(es[..n - 1]).Set(last, om.m[last]);
      assert FromEntries(es) == prefix.Set(last, om.m[last]);
      DropLastThenSet(om);
    }
  }

  lemma EntriesOfDropLast<V>(om: OrderedMap<V>)
    requires om.Wf() && om.keys != []
    ensures om.Entries()[..|om.keys| - 1] == DropLast(om).Entries()
  {
    var n := |om.keys|;
    forall i | 0 <= i < n - 1 ensures om.Entries()[..n - 1][i] == DropLast(om).Entries()[i] {
      assert om.keys[i] != om.keys[n - 1];
    }
  }

  /** The map without its most recently inserted key. */
  function DropLast<V>(om: OrderedMap<V>): (r: OrderedMap<V>)
    requires om.Wf() && om.keys != []
    ensures r.Wf()
    ensures r.keys == om.keys[..|om.keys| - 1]
    ensures r.m == om.m - {om.keys[|om.keys| - 1]}
    ensures om.keys[|om.keys| - 1] !in r.m
  {
    var n := |om.keys|;
    var r := OrderedMap(om.keys[..n - 1], om.m - {om.keys[n - 1]});
    assert forall k :: k in r.m ==> k in r.keys by {
      forall k | k in r.m ensures k in r.keys {
        var i :| 0 <= i < n && om.keys[i] == k;
        assert r.keys[i] == k;
      }
    }
    r
  }

  lemma DropLastThenSet<V>(om: OrderedMap<V>)
    requires om.Wf() && om.keys != []
    ensures DropLast(om).Set(om.keys[|om.keys| - 1], om.m[om.keys[|om.keys| - 1]]) == om
  {
    assert om.keys == om.keys[..|om.keys| - 1] + [om.keys[|om.keys| - 1]];
  }

  /** The total of `f` over the values of the listed keys that are present. */
  function SumOf<V>(keys: seq<string>, m: map<string, V>, f: V -> int): int {
    if keys == [] then 0
    else
      var k := keys[|keys| - 1];
      SumOf(keys[..|keys| - 1], m, f) + (if k in m then f(m[k]) else 0)
  }

  /** Replacing one value changes the total by the difference of that value's share. */
  lemma {:induction false} SumOfUpdate<V>(keys: seq<string>, m: map<string, V>, f: V -> int, k: string, v: V)
    requires Distinct(keys)
    requires k in m
    ensures SumOf(keys, m[k := v], f) == SumOf(keys, m, f) + (if k in keys then f(v) - f(m[k]) else 0)
  {
    if keys != [] {
      var pre := keys[..|keys| - 1];
      SumOfUpdate(pre, m, f, k, v);
      assert keys == pre + [keys[|keys| - 1]];
      assert k in keys <==> k in pre || k == keys[|keys| - 1];
      assert k == keys[|keys| - 1] ==> k !in pre;
    }
  }

  /** The total over an ordered map after one `Set` of a present key. */
  lemma SumAfterSet<V>(om: OrderedMap<V>, f: V -> int, k: string, v: V)
    requires Distinct(om.keys) && k in om.m
    ensures SumOf(om.Set(k, v).keys, om.Set(k, v).m, f) ==
      SumOf(om.keys, om.m, f) + (if k in om.keys then f(v) - f(om.m[k]) else 0)
  {
    SumOfUpdate(om.keys, om.m, f, k, v);
  }
}
