/** The seed inventory and the worked scenarios, checked against the model. */
module Examples {
  import opened Results
  import opened Types
  import opened IsoDate
  import opened InventoryManager
  import opened Dashboard
  import App

  /** Every seed record's expiry is its purchase date plus its warranty period. */
  lemma SeedExpiriesConsistent()
    ensures forall i :: 0 <= i < |App.Seed()| ==> ExpiryConsistent(App.Seed()[i])
  {
    forall i | 0 <= i < |App.Seed()| ensures ExpiryConsistent(App.Seed()[i]) {
      if i == 0 {
        DellXpsConsistent();
      } else if i == 1 {
        MerakiApConsistent();
      } else if i == 2 {
        MacBookProConsistent();
      } else if i == 3 {
        ProLiantConsistent();
      } else {
        SamsungMonitorConsistent();
      }
    }
  }

  lemma DellXpsConsistent()
    ensures ExpiryConsistent(App.DellXps())
  {
    assert Parse("2023-01-15") == Some(Date(2023, 1, 15));
    assert Parse("2026-01-15") == Some(Date(2026, 1, 15));
    ExpiryConsistentByDates(App.DellXps());
  }

  lemma MerakiApConsistent()
    ensures ExpiryConsistent(App.MerakiAp())
  {
    assert Parse("2021-06-10") == Some(Date(2021, 6, 10));
    assert Parse("2026-06-10") == Some(Date(2026, 6, 10));
    ExpiryConsistentByDates(App.MerakiAp());
  }

  lemma MacBookProConsistent()
    ensures ExpiryConsistent(App.MacBookPro())
  {
    assert Parse("2022-03-01") == Some(Date(2022, 3, 1));
    assert Parse("2023-03-01") == Some(Date(2023, 3, 1));
    ExpiryConsistentByDates(App.MacBookPro());
  }

  lemma ProLiantConsistent()
    ensures ExpiryConsistent(App.ProLiant())
  {
    assert Parse("2020-05-20") == Some(Date(2020, 5, 20));
    assert Parse("2024-05-20") == Some(Date(2024, 5, 20));
    ExpiryConsistentByDates(App.ProLiant());
  }

  lemma SamsungMonitorConsistent()
    ensures ExpiryConsistent(App.SamsungMonitor())
  {
    assert Parse("2023-11-05") == Some(Date(2023, 11, 5));
    assert Parse("2025-11-05") == Some(Date(2025, 11, 5));
    ExpiryConsistentByDates(App.SamsungMonitor());
  }

  /** Adding an asset bought on 2023-01-15 with a three-year warranty records 2026-01-15. */
  lemma AddScenario(id: string)
    ensures var draft := Draft(Some("Dell XPS 15"), Laptop, Some("Dell Enterprise"), Some("2023-01-15"),
                               Some(3), None, None, Active);
      CreateItem(draft, id).Ok? && CreateItem(draft, id).value.warrantyExpirationDate == "2026-01-15"
  {
    assert Parse("2023-01-15") == Some(Date(2023, 1, 15));
    assert Format(Date(2026, 1, 15)) == "2026-01-15";
  }

  /** One asset expired on 2023-03-01 and in repair, one expiring 2026-06-10 and active: at
      the start of 2024 one warranty has expired and one asset is active. */
  lemma DashboardScenario()
    ensures var inventory := [
        Item("a", "Laptop", Laptop, "V", "2022-03-01", 1, "2023-03-01", "S1", 0, InRepair),
        Item("b", "AP", Networking, "V", "2021-06-10", 5, "2026-06-10", "S2", 0, Active)];
      ExpiredWarrantyCount(inventory, Instant(Date(2024, 1, 1), 0)) == 1 &&
      ActiveCount(inventory) == 1
  {
  }

  /** The dashboard counters for the seed inventory. */
  lemma SeedTotals()
    ensures TotalAssets(App.Seed()) == 5 && TotalValue(App.Seed()) == 9998
    ensures ActiveCount(App.Seed()) == 4
  {
    var s := App.Seed();
    assert TotalValue(s) == 9998 by {
      assert TotalValue(s[4..]) == 450 by {
        assert s[4..][..0] == [];
      }
      TotalValueAfterAdd(s[4..], s[3]);
      assert [s[3]] + s[4..] == s[3..];
      TotalValueAfterAdd(s[3..], s[2]);
      assert [s[2]] + s[3..] == s[2..];
      TotalValueAfterAdd(s[2..], s[1]);
      assert [s[1]] + s[2..] == s[1..];
      TotalValueAfterAdd(s[1..], s[0]);
      assert [s[0]] + s[1..] == s;
    }
  }

  /** The category chart for the seed inventory. */
  lemma SeedCategoryData()
    ensures CategoryData(App.Seed()) == [Entry(Laptop, 2), Entry(Networking, 1), Entry(Server, 1), Entry(Peripheral, 1)]
  {
    var s := App.Seed();
    assert CategoryData(s) == [Entry(Laptop, 2), Entry(Networking, 1), Entry(Server, 1), Entry(Peripheral, 1)] by {
      var keys := [Laptop, Networking, Laptop, Server, Peripheral];
      assert Categories(s) == keys;
      assert keys[..1] == [Laptop] && [Laptop][..0] == [];
      assert Tally(keys[..1]) == [Entry(Laptop, 1)];
      assert keys[..2][..1] == keys[..1];
      assert Bump([Entry(Laptop, 1)], Networking) == [Entry(Laptop, 1)] + Bump([], Networking);
      assert Tally(keys[..2]) == [Entry(Laptop, 1), Entry(Networking, 1)];
      assert keys[..3][..2] == keys[..2];
      assert Tally(keys[..3]) == [Entry(Laptop, 2), Entry(Networking, 1)];
      assert keys[..4][..3] == keys[..3];
      assert Bump([Entry(Networking, 1)], Server) == [Entry(Networking, 1)] + Bump([], Server);
      assert Tally(keys[..4]) == [Entry(Laptop, 2), Entry(Networking, 1), Entry(Server, 1)];
      assert keys[..4] == keys[..|keys| - 1];
      assert Bump([Entry(Server, 1)], Peripheral) == [Entry(Server, 1)] + Bump([], Peripheral);
      assert Bump([Entry(Networking, 1), Entry(Server, 1)], Peripheral) ==
        [Entry(Networking, 1)] + Bump([Entry(Server, 1)], Peripheral);
    }
  }

  /** The status chart for the seed inventory. */
  lemma SeedStatusData()
    ensures StatusData(App.Seed()) == [Entry(Active, 4), Entry(InRepair, 1)]
  {
    var s := App.Seed();
    assert StatusData(s) == [Entry(Active, 4), Entry(InRepair, 1)] by {
      var keys := [Active, Active, InRepair, Active, Active];
      assert Statuses(s) == keys;
      assert keys[..1] == [Active] && [Active][..0] == [];
      assert Tally(keys[..1]) == [Entry(Active, 1)];
      assert keys[..2][..1] == keys[..1];
      assert Tally(keys[..2]) == [Entry(Active, 2)];
      assert keys[..3][..2] == keys[..2];
      assert Bump([Entry(Active, 2)], InRepair) == [Entry(Active, 2)] + Bump([], InRepair);
      assert Tally(keys[..3]) == [Entry(Active, 2), Entry(InRepair, 1)];
      assert keys[..4][..3] == keys[..3];
      assert Tally(keys[..4]) == [Entry(Active, 3), Entry(InRepair, 1)];
      assert keys[..4] == keys[..|keys| - 1];
    }
  }
}
