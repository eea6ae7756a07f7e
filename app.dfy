/** The application's `inventory` state cell (App.tsx): a list of assets, newest first,
    changed only by `handleAddItem` and `handleDeleteItem`; and the seed inventory. */
module App {
  import opened Types
  import opened Seqs

  /** The ids in use. */
  function Ids(inventory: seq<Item>): set<string> {
    set item | item in inventory :: item.id
  }

  /** No two assets share an id. */
  predicate UniqueIds(inventory: seq<Item>) {
    forall i, j :: 0 <= i < j < |inventory| ==> inventory[i].id != inventory[j].id
  }

  /** The filter predicate of `handleDeleteItem`: the asset has another id. */
  function OtherId(id: string): Item -> bool {
    (item: Item) => item.id != id
  }

  /** The list without the assets that carry `id`, the others in their order. */
  function WithoutId(inventory: seq<Item>, id: string): (r: seq<Item>)
    ensures |r| <= |inventory|
    ensures forall i :: 0 <= i < |r| ==> r[i].id != id
  {
    Filter(OtherId(id), inventory)
  }

  class Inventory {
    var items: seq<Item>

    constructor (initial: seq<Item>)
      ensures items == initial
    {
      items := initial;
    }

    /** `handleAddItem`: the new asset goes in front of all existing ones. */
    method HandleAddItem(item: Item)
      modifies this
      ensures items == [item] + old(items)
      ensures |items| == |old(items)| + 1 && items[0] == item && items[1..] == old(items)
      ensures old(UniqueIds(items)) && item.id !in old(Ids(items)) ==> UniqueIds(items)
    {
      AddKeepsIdsUnique(items, item);
      items := [item] + items;
    }

    /** `handleDeleteItem`: every asset with this id goes, all others stay in order. */
    method HandleDeleteItem(id: string)
      modifies this
      ensures items == WithoutId(old(items), id)
      ensures id !in Ids(items)
      ensures old(UniqueIds(items)) ==> UniqueIds(items)
    {
      DeleteSpec(items, id);
      if UniqueIds(items) {
        DeleteKeepsIdsUnique(items, id);
      }
      items := WithoutId(items, id);
    }
  }

  /** Delete keeps exactly the assets with another id, in their original order. */
  lemma DeleteSpec(inventory: seq<Item>, id: string)
    ensures IsSubsequence(WithoutId(inventory, id), inventory)
    ensures forall item :: item in WithoutId(inventory, id) <==> item in inventory && item.id != id
    ensures forall item ::
      multiset(WithoutId(inventory, id))[item] == if item.id != id then multiset(inventory)[item] else 0
    ensures id !in Ids(WithoutId(inventory, id))
  {
    FilterIsSubsequence(OtherId(id), inventory);
    FilterCounts(OtherId(id), inventory);
  }

  /** Deleting an id that is not in use changes nothing. */
  lemma DeleteAbsent(inventory: seq<Item>, id: string)
    requires id !in Ids(inventory)
    ensures WithoutId(inventory, id) == inventory
  {
    FilterKeepsAll(OtherId(id), inventory);
  }

  /** Deleting the same id twice is deleting it once. */
  lemma DeleteIdempotent(inventory: seq<Item>, id: string)
    ensures WithoutId(WithoutId(inventory, id), id) == WithoutId(inventory, id)
  {
    FilterIdempotent(OtherId(id), inventory);
  }

  /** Adding an asset with a fresh id and then deleting that id restores the list exactly. */
  lemma AddThenDelete(inventory: seq<Item>, item: Item)
    requires item.id !in Ids(inventory)
    ensures WithoutId([item] + inventory, item.id) == inventory
  {
    assert ([item] + inventory)[1..] == inventory;
    DeleteAbsent(inventory, item.id);
  }

  /** Prepending keeps ids unique exactly when the new id is not already in use. */
  lemma AddKeepsIdsUnique(inventory: seq<Item>, item: Item)
    ensures UniqueIds([item] + inventory) <==> UniqueIds(inventory) && item.id !in Ids(inventory)
  {
    var s := [item] + inventory;
    if UniqueIds(s) {
      forall i, j | 0 <= i < j < |inventory| ensures inventory[i].id != inventory[j].id {
        assert s[i + 1] == inventory[i] && s[j + 1] == inventory[j];
      }
    }
    if item.id in Ids(inventory) {
      var k :| 0 <= k < |inventory| && inventory[k].id == item.id;
      assert s[0].id == s[k + 1].id;
    }
    if UniqueIds(inventory) && item.id !in Ids(inventory) {
      forall i, j | 0 <= i < j < |s| ensures s[i].id != s[j].id {
        assert s[j] == inventory[j - 1];
        if i > 0 {
          assert s[i] == inventory[i - 1];
        } else {
          assert s[j].id in Ids(inventory);
        }
      }
    }
  }

  /** Deleting never makes two assets share an id. */
  lemma {:induction false} DeleteKeepsIdsUnique(inventory: seq<Item>, id: string)
    requires UniqueIds(inventory)
    ensures UniqueIds(WithoutId(inventory, id))
  {
    if inventory != [] {
      var rest := inventory[1..];
      AddKeepsIdsUnique(rest, inventory[0]);
      assert inventory == [inventory[0]] + rest;
      DeleteKeepsIdsUnique(rest, id);
      if inventory[0].id != id {
        DeleteSpec(rest, id);
        AddKeepsIdsUnique(WithoutId(rest, id), inventory[0]);
      }
    }
  }

  /** With unique ids, deleting an id in use removes exactly one asset. */
  lemma {:induction false} DeleteRemovesOne(inventory: seq<Item>, id: string)
    requires UniqueIds(inventory) && id in Ids(inventory)
    ensures |WithoutId(inventory, id)| == |inventory| - 1
  {
    var rest := inventory[1..];
    assert inventory == [inventory[0]] + rest;
    AddKeepsIdsUnique(rest, inventory[0]);
    if inventory[0].id == id {
      DeleteAbsent(rest, id);
    } else {
      assert id in Ids(rest);
      DeleteRemovesOne(rest, id);
    }
  }

  /** The mock inventory the application starts with. */
  function Seed(): (r: seq<Item>)
    ensures |r| == 5
  {
    [DellXps(), MerakiAp(), MacBookPro(), ProLiant(), SamsungMonitor()]
  }

  function DellXps(): Item {
    Item("1", "Dell XPS 15", Laptop, "Dell Enterprise", "2023-01-15", 3, "2026-01-15", "DXP-99283", 2199, Active)
  }

  function MerakiAp(): Item {
    Item("2", "Cisco Meraki MR46", Networking, "CDW", "2021-06-10", 5, "2026-06-10", "Q2KD-99A1-X", 850, Active)
  }

  function MacBookPro(): Item {
    Item("3", "MacBook Pro 14\"", Laptop, "Apple Business", "2022-03-01", 1, "2023-03-01", "FVFX9283", 1999, InRepair)
  }

  function ProLiant(): Item {
    Item("4", "HP ProLiant Server", Server, "HPE", "2020-05-20", 4, "2024-05-20", "HP-SRV-001", 4500, Active)
  }

  function SamsungMonitor(): Item {
    Item("5", "Samsung 34\" Monitor", Peripheral, "Amazon Business", "2023-11-05", 2, "2025-11-05", "SAM-34-W", 450, Active)
  }

  /** The seed ids are "1" to "5", all distinct. */
  lemma SeedIds()
    ensures UniqueIds(Seed())
    ensures Ids(Seed()) == {"1", "2", "3", "4", "5"}
  {
    var s := Seed();
    assert s[0].id == "1" && s[1].id == "2" && s[2].id == "3" && s[3].id == "4" && s[4].id == "5";
    assert forall item :: item in s ==> item == s[0] || item == s[1] || item == s[2] || item == s[3] || item == s[4];
  }
}
