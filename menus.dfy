/**
 * The numbered menus that `radar`, `manually_connect` and
 * `delete_a_network` print: `networks_dict` maps 1..n to the n items in
 * order, and a typed index is acted on only when it is one of its keys.
 */
module Menus {
  import opened Wrappers

  /** `menu` has exactly the keys 1..|items|, key k holding the k-th item. */
  ghost predicate IsIndexMenu<T>(menu: map<int, T>, items: seq<T>)
  {
    && (forall k :: k in menu <==> 1 <= k <= |items|)
    && (forall k :: 1 <= k <= |items| ==> menu[k] == items[k - 1])
  }

  /** `networks_dict.update({i: item})` for each `(i, item)` of `enumerate(items, start=1)`. */
  method IndexMenu<T>(items: seq<T>) returns (menu: map<int, T>)
    ensures IsIndexMenu(menu, items)
  {
    menu := map[];
    for i := 0 to |items|
      invariant forall k :: k in menu <==> 1 <= k <= i
      invariant forall k :: 1 <= k <= i ==> menu[k] == items[k - 1]
    {
      menu := menu[i + 1 := items[i]];
    }
  }

  /** The values of an index menu are exactly the items it was built from. */
  lemma IndexMenuValues<T>(menu: map<int, T>, items: seq<T>)
    requires IsIndexMenu(menu, items)
    ensures forall x :: x in menu.Values <==> x in items
  {
    forall x | x in items
      ensures x in menu.Values
    {
      var i :| 0 <= i < |items| && items[i] == x;
      assert menu[i + 1] == x;
    }
    forall x | x in menu.Values
      ensures x in items
    {
      var k := KeyOf(menu, x);
      assert items[k - 1] == x;
    }
  }

  /** Some key under which `x` is stored. */
  ghost function KeyOf<K, V>(m: map<K, V>, x: V): (k: K)
    requires x in m.Values
    ensures k in m && m[k] == x
  {
    var k :| k in m.Keys && m[k] == x; k
  }

  /** `ask_user in networks_dict.keys()`, then `networks_dict[ask_user]`. */
  function Select<T>(menu: map<int, T>, choice: int): Option<T>
  {
    if choice in menu then Some(menu[choice]) else None
  }

  /** A choice is acted on if and only if it lies in 1..n, and then picks the item at that position. */
  lemma SelectFromIndexMenu<T>(menu: map<int, T>, items: seq<T>, choice: int)
    requires IsIndexMenu(menu, items)
    ensures Select(menu, choice).Some? <==> 1 <= choice <= |items|
    ensures Select(menu, choice).Some? ==> Select(menu, choice).value == items[choice - 1]
  {
  }

  /** `keys` enumerates the keys of `m`, each once, in some order. */
  ghost predicate IsListing<V>(keys: seq<string>, m: map<string, V>)
  {
    && (forall k :: k in keys <==> k in m)
    && (forall i, j :: 0 <= i < j < |keys| ==> keys[i] != keys[j])
    && |keys| == |m|
  }

  /**
   * `QUERY0.keys()`: the dict's iteration order is not fixed by the
   * language, so each key is taken from those not yet listed in an
   * unspecified order.
   */
  method ListKeys<V>(m: map<string, V>) returns (keys: seq<string>)
    ensures IsListing(keys, m)
  {
    keys := [];
    var rest := m.Keys;
    while rest != {}
      invariant rest <= m.Keys
      invariant forall k :: k in keys <==> k in m && k !in rest
      invariant forall i, j :: 0 <= i < j < |keys| ==> keys[i] != keys[j]
      invariant |keys| + |rest| == |m|
      decreases |rest|
    {
      var k :| k in rest;
      keys := keys + [k];
      rest := rest - {k};
    }
  }
}
