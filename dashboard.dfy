/** The statistics and chart data the dashboard derives from the inventory on every render
    (components/Dashboard.tsx). All of it is a pure function of the list. */
module Dashboard {
  import opened Types
  import opened Seqs
  import opened IsoDate
  import InventoryManager

  /** `inventory.length`. */
  function TotalAssets(inventory: seq<Item>): nat {
    |inventory|
  }

  /** The sum of all costs, folded from the left. */
  function TotalValue(inventory: seq<Item>): int {
    if inventory == [] then 0
    else TotalValue(inventory[..|inventory| - 1]) + inventory[|inventory| - 1].cost
  }

  /** The total value of two lists one after the other is the sum of their totals. */
  lemma {:induction false} TotalValueConcat(a: seq<Item>, b: seq<Item>)
    ensures TotalValue(a + b) == TotalValue(a) + TotalValue(b)
    decreases |b|
  {
    if b != [] {
      var init := b[..|b| - 1];
      assert (a + b)[..|a + b| - 1] == a + init;
      TotalValueConcat(a, init);
    } else {
      assert a + b == a;
    }
  }

  /** Adding an asset raises the total value by exactly its cost. */
  lemma TotalValueAfterAdd(inventory: seq<Item>, item: Item)
    ensures TotalValue([item] + inventory) == item.cost + TotalValue(inventory)
  {
    TotalValueConcat([item], inventory);
    assert [item][..0] == [];
  }

  /** With no negative costs the total value is never negative. */
  lemma {:induction false} TotalValueNonNegative(inventory: seq<Item>)
    requires forall i :: 0 <= i < |inventory| ==> inventory[i].cost >= 0
    ensures TotalValue(inventory) >= 0
  {
    if inventory != [] {
      TotalValueNonNegative(inventory[..|inventory| - 1]);
    }
  }

  /** The filter predicate of `expiredWarrantyCount`, shared with the table's expired flag. */
  function ExpiredAt(now: Instant): Item -> bool {
    (item: Item) => InventoryManager.IsExpired(item, now)
  }

  /** The number of assets whose warranty has expired at `now`. */
  function ExpiredWarrantyCount(inventory: seq<Item>, now: Instant): (n: nat)
    ensures n <= TotalAssets(inventory)
  {
    |Filter(ExpiredAt(now), inventory)|
  }

  /** As time passes the expired count never goes down. */
  lemma ExpiredCountGrows(inventory: seq<Item>, now: Instant, later: Instant)
    requires !InstantBefore(later, now)
    ensures ExpiredWarrantyCount(inventory, now) <= ExpiredWarrantyCount(inventory, later)
  {
    forall item | ExpiredAt(now)(item) ensures ExpiredAt(later)(item) {
      InventoryManager.ExpiredStaysExpired(item, now, later);
    }
    FilterStronger(ExpiredAt(now), ExpiredAt(later), inventory);
  }

  predicate IsActive(item: Item) {
    item.status == Active
  }

  /** The number of assets whose status is Active. */
  function ActiveCount(inventory: seq<Item>): (n: nat)
    ensures n <= TotalAssets(inventory)
  {
    |Filter(IsActive, inventory)|
  }

  // ---------------------------------------------------------------------------
  // Group-by-count: the `reduce` into a record followed by `Object.entries`

  /** One `{ name, value }` entry of the chart data. */
  datatype Entry<K> = Entry(name: K, value: nat)

  function Names<K>(entries: seq<Entry<K>>): seq<K> {
    seq(|entries|, i requires 0 <= i < |entries| => entries[i].name)
  }

  function SumValues<K>(entries: seq<Entry<K>>): int {
    if entries == [] then 0 else entries[0].value + SumValues(entries[1..])
  }

  /** Increments the count of `k` in a record whose keys keep their insertion order: an
      existing key is incremented in place, a new key is appended with count 1. */
  function Bump<K(==)>(acc: seq<Entry<K>>, k: K): (r: seq<Entry<K>>)
    ensures |acc| <= |r| <= |acc| + 1
  {
    if acc == [] then [Entry(k, 1)]
    else if acc[0].name == k then [Entry(k, acc[0].value + 1)] + acc[1..]
    else [acc[0]] + Bump(acc[1..], k)
  }

  /** Counts the keys in one pass, left to right, into entries ordered by first occurrence. */
  function Tally<K(==)>(keys: seq<K>): (r: seq<Entry<K>>)
    ensures |r| <= |keys|
  {
    if keys == [] then []
    else Bump(Tally(keys[..|keys| - 1]), keys[|keys| - 1])
  }

  /** One step of the count: with distinct names, an existing key is incremented where it
      stands and any other key is appended with count 1; no other entry changes. */
  lemma {:induction false} BumpSpec<K>(acc: seq<Entry<K>>, k: K)
    requires Distinct(Names(acc))
    ensures k in Names(acc) ==> |Bump(acc, k)| == |acc|
    ensures k !in Names(acc) ==> |Bump(acc, k)| == |acc| + 1 && Bump(acc, k)[|acc|] == Entry(k, 1)
    ensures forall i :: 0 <= i < |acc| ==>
      Bump(acc, k)[i] == if acc[i].name == k then Entry(k, acc[i].value + 1) else acc[i]
  {
    if acc != [] {
      var r := Bump(acc, k);
      assert Names(acc[1..]) == Names(acc)[1..];
      if acc[0].name == k {
        assert r == [Entry(k, acc[0].value + 1)] + acc[1..];
        assert Names(acc)[0] == k;
        assert forall i :: 1 <= i < |acc| ==> acc[i].name != k by {
          forall i | 1 <= i < |acc| ensures acc[i].name != k {
            assert Names(acc)[0] == k && Names(acc)[i] == acc[i].name;
          }
        }
      } else {
        assert r == [acc[0]] + Bump(acc[1..], k);
        BumpSpec(acc[1..], k);
        assert k in Names(acc) <==> k in Names(acc[1..]) by {
          assert Names(acc) == [acc[0].name] + Names(acc[1..]);
        }
      }
    }
  }

  /** One step of the count adds exactly one to the total. */
  lemma {:induction false} BumpSum<K>(acc: seq<Entry<K>>, k: K)
    ensures SumValues(Bump(acc, k)) == SumValues(acc) + 1
  {
    if acc != [] {
      var r := Bump(acc, k);
      if acc[0].name == k {
        assert r[1..] == acc[1..];
      } else {
        assert r[1..] == Bump(acc[1..], k);
        BumpSum(acc[1..], k);
      }
    }
  }

  /** The chart data for a list of keys names the distinct keys in first-seen order. */
  lemma {:induction false} TallyNames<K>(keys: seq<K>)
    ensures Names(Tally(keys)) == FirstSeen(keys)
  {
    if keys != [] {
      var init, k := keys[..|keys| - 1], keys[|keys| - 1];
      TallyNames(init);
      var acc := Tally(init);
      BumpSpec(acc, k);
      FirstSeenHas(init, k);
      var r := Tally(keys);
      assert r == Bump(acc, k);
      if k in Names(acc) {
        assert Names(r) == Names(acc);
      } else {
        assert Names(r) == Names(acc) + [k];
      }
    }
  }

  /** Every entry's value is the number of occurrences of its name in `keys`. */
  ghost predicate Counted<K>(entries: seq<Entry<K>>, keys: seq<K>) {
    forall i :: 0 <= i < |entries| ==> entries[i].value == multiset(keys)[entries[i].name]
  }

  /** One step of the `reduce` keeps every count exact. */
  lemma BumpCounted<K>(acc: seq<Entry<K>>, keys: seq<K>, k: K)
    requires Distinct(Names(acc)) && Counted(acc, keys)
    requires k in Names(acc) <==> k in keys
    ensures Counted(Bump(acc, k), keys + [k])
  {
    BumpSpec(acc, k);
    var r := Bump(acc, k);
    assert multiset(keys + [k]) == multiset(keys) + multiset{k};
    forall i | 0 <= i < |r| ensures r[i].value == multiset(keys + [k])[r[i].name] {
      if i < |acc| {
        assert acc[i].value == multiset(keys)[acc[i].name];
      } else {
        assert k !in keys;
      }
    }
  }

  /** Each value of the chart data is the number of occurrences of its name. */
  lemma {:induction false} TallyValues<K>(keys: seq<K>)
    ensures Counted(Tally(keys), keys)
  {
    if keys != [] {
      var init, k := keys[..|keys| - 1], keys[|keys| - 1];
      assert keys == init + [k];
      TallyValues(init);
      TallyNames(init);
      FirstSeenHas(init, k);
      BumpCounted(Tally(init), init, k);
    }
  }

  /** The values of the chart data add up to the number of keys. */
  lemma {:induction false} TallySum<K>(keys: seq<K>)
    ensures SumValues(Tally(keys)) == |keys|
  {
    if keys != [] {
      var init := keys[..|keys| - 1];
      TallySum(init);
      BumpSum(Tally(init), keys[|keys| - 1]);
    }
  }

  /** The category of every asset, in list order. */
  function Categories(inventory: seq<Item>): seq<Category> {
    seq(|inventory|, i requires 0 <= i < |inventory| => inventory[i].category)
  }

  /** The status of every asset, in list order. */
  function Statuses(inventory: seq<Item>): seq<Status> {
    seq(|inventory|, i requires 0 <= i < |inventory| => inventory[i].status)
  }

  /** `categoryData`. */
  function CategoryData(inventory: seq<Item>): (r: seq<Entry<Category>>)
    ensures |r| <= TotalAssets(inventory)
  {
    Tally(Categories(inventory))
  }

  /** `statusData`. */
  function StatusData(inventory: seq<Item>): (r: seq<Entry<Status>>)
    ensures |r| <= TotalAssets(inventory)
  {
    Tally(Statuses(inventory))
  }

  /** `categoryData` lists each category present once, in first-seen order, with the number of
      assets in it (at least one), and its values add up to the number of assets. */
  lemma CategoryDataSpec(inventory: seq<Item>)
    ensures var data := CategoryData(inventory);
      Distinct(Names(data)) && Names(data) == FirstSeen(Categories(inventory)) &&
      (forall i :: 0 <= i < |data| ==>
         data[i].value == multiset(Categories(inventory))[data[i].name] && data[i].value >= 1) &&
      (forall c :: c in Categories(inventory) <==> c in Names(data)) &&
      SumValues(data) == TotalAssets(inventory)
  {
    var keys, data := Categories(inventory), CategoryData(inventory);
    TallyNames(keys);
    TallyValues(keys);
    TallySum(keys);
    forall i | 0 <= i < |data| ensures data[i].value >= 1 {
      assert Names(data)[i] == data[i].name;
      assert data[i].name in keys;
    }
    forall c ensures c in keys <==> c in Names(data) {
      FirstSeenHas(keys, c);
    }
  }

  /** `statusData` has the same shape for statuses. */
  lemma StatusDataSpec(inventory: seq<Item>)
    ensures var data := StatusData(inventory);
      Distinct(Names(data)) && Names(data) == FirstSeen(Statuses(inventory)) &&
      (forall i :: 0 <= i < |data| ==>
         data[i].value == multiset(Statuses(inventory))[data[i].name] && data[i].value >= 1) &&
      (forall s :: s in Statuses(inventory) <==> s in Names(data)) &&
      SumValues(data) == TotalAssets(inventory)
  {
    var keys, data := Statuses(inventory), StatusData(inventory);
    TallyNames(keys);
    TallyValues(keys);
    TallySum(keys);
    forall i | 0 <= i < |data| ensures data[i].value >= 1 {
      assert Names(data)[i] == data[i].name;
      assert data[i].name in keys;
    }
    forall c ensures c in keys <==> c in Names(data) {
      FirstSeenHas(keys, c);
    }
  }

  /** The active count agrees with the number of assets whose status is Active, which is what
      the Active slice of `statusData` shows. */
  lemma {:induction false} ActiveCountMatchesStatuses(inventory: seq<Item>)
    ensures ActiveCount(inventory) == multiset(Statuses(inventory))[Active]
  {
    if inventory != [] {
      ActiveCountMatchesStatuses(inventory[1..]);
      assert Statuses(inventory) == [inventory[0].status] + Statuses(inventory[1..]);
    }
  }

  /** An empty inventory shows zero everywhere and no chart data. */
  lemma EmptyDashboard(now: Instant)
    ensures TotalAssets([]) == 0 && TotalValue([]) == 0
    ensures ExpiredWarrantyCount([], now) == 0 && ActiveCount([]) == 0
    ensures CategoryData([]) == [] && StatusData([]) == []
  {
  }
}
