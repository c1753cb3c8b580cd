/**
 * The client's inventory (`inventory_` in src/client/client.cpp and the older client.cpp)
 * and the first-match search both clients use on their lists (`std::find_if`).
 */
module Inventories {
  import opened Wrappers

  datatype Item = Item(name: string, description: string, price: int)

  /** `std::find_if`: the index of the first element satisfying `p`, if any. */
  function FindFirst<T>(s: seq<T>, p: T -> bool): (r: Option<nat>)
    ensures r.Some? ==> r.value < |s| && p(s[r.value]) && forall j :: 0 <= j < r.value ==> !p(s[j])
    ensures r.None? <==> forall j :: 0 <= j < |s| ==> !p(s[j])
  {
    if s == [] then None
    else if p(s[0]) then Some(0)
    else
      match FindFirst(s[1..], p)
      case None => None
      case Some(k) => Some(k + 1)
  }

  /** `vector::erase` at one position. */
  function RemoveAt<T>(s: seq<T>, k: nat): (r: seq<T>)
    requires k < |s|
    ensures |r| == |s| - 1
    ensures forall j :: 0 <= j < k ==> r[j] == s[j]
    ensures forall j :: k <= j < |r| ==> r[j] == s[j + 1]
    ensures multiset(r) + multiset{s[k]} == multiset(s)
  {
    assert s == s[..k] + [s[k]] + s[k + 1..];
    s[..k] + s[k + 1..]
  }

  /** The test `item.name == name`. */
  function HasName(name: string): Item -> bool
  {
    (it: Item) => it.name == name
  }

  /** The first item with this name. */
  function FindItem(inventory: seq<Item>, name: string): Option<nat>
  {
    FindFirst(inventory, HasName(name))
  }

  /** `removeItem`: without the first item of that name; unchanged if there is none. */
  function RemoveFirst(inventory: seq<Item>, name: string): (r: seq<Item>)
    ensures FindItem(inventory, name).None? ==> r == inventory
    ensures FindItem(inventory, name).Some? ==>
      var k := FindItem(inventory, name).value;
      && inventory[k].name == name
      && (forall j :: 0 <= j < k ==> inventory[j].name != name)
      && r == inventory[..k] + inventory[k + 1..]
  {
    match FindItem(inventory, name)
    case None => inventory
    case Some(k) => RemoveAt(inventory, k)
  }

  /** Removing the name of an item just added, when no earlier item has that name, undoes the addition. */
  lemma AddThenRemove(inventory: seq<Item>, item: Item)
    requires FindItem(inventory, item.name).None?
    ensures RemoveFirst(inventory + [item], item.name) == inventory
  {
    var s := inventory + [item];
    var r := FindItem(s, item.name);
    assert HasName(item.name)(s[|inventory|]);
    assert r.value == |inventory|;
    assert s[..|inventory|] == inventory;
  }

  /** Removing a name leaves every item of another name where it was, in order. */
  lemma RemoveKeepsOthers(inventory: seq<Item>, name: string)
    ensures var r := RemoveFirst(inventory, name);
      forall other :: other != name ==> FilterNamed(r, other) == FilterNamed(inventory, other)
  {
    match FindItem(inventory, name)
    case None =>
    case Some(k) =>
      forall other | other != name
        ensures FilterNamed(RemoveFirst(inventory, name), other) == FilterNamed(inventory, other)
      {
        assert inventory == inventory[..k] + [inventory[k]] + inventory[k + 1..];
        FilterAppend(inventory[..k] + [inventory[k]], inventory[k + 1..], other);
        FilterAppend(inventory[..k], [inventory[k]], other);
        FilterAppend(inventory[..k], inventory[k + 1..], other);
      }
  }

  /** The items of a given name, in order. */
  function FilterNamed(s: seq<Item>, name: string): seq<Item>
  {
    if s == [] then [] else (if s[0].name == name then [s[0]] else []) + FilterNamed(s[1..], name)
  }

  lemma {:induction false} FilterAppend(a: seq<Item>, b: seq<Item>, name: string)
    ensures FilterNamed(a + b, name) == FilterNamed(a, name) + FilterNamed(b, name)
  {
    if a != [] {
      assert (a + b)[0] == a[0];
      assert (a + b)[1..] == a[1..] + b;
      FilterAppend(a[1..], b, name);
    } else {
      assert a + b == b;
    }
  }
}
