/**
 The dashboard's small counters: the shopping list of items at or below their
 minimum stock, and the counts shown in the stats tiles.
 */
module DashboardStats {
  import opened JsArray
  import opened Records

  /** `item.stock <= item.minStock` */
  predicate NeedsRestock(item: InventoryItem)
  {
    item.stock <= item.minStock
  }

  /**
   `inventory.filter(item => item.stock <= item.minStock)`: exactly the items
   at or below their minimum, each as often as it is listed.
   */
  function ShoppingList(inventory: seq<InventoryItem>): (list: seq<InventoryItem>)
    ensures forall item :: item in list <==> item in inventory && item.stock <= item.minStock
    ensures forall item :: multiset(list)[item] == if NeedsRestock(item) then multiset(inventory)[item] else 0
  {
    var list := Filter(inventory, NeedsRestock);
    assert forall item :: item in list <==> item in inventory && item.stock <= item.minStock by {
      forall item ensures item in list <==> item in inventory && item.stock <= item.minStock {
        FilterKeeps(inventory, NeedsRestock, item);
      }
    }
    list
  }

  /** The shopping list keeps the inventory's order. */
  lemma ShoppingListKeepsOrder(a: seq<InventoryItem>, b: seq<InventoryItem>)
    ensures ShoppingList(a + b) == ShoppingList(a) + ShoppingList(b)
  {
    FilterConcat(a, b, NeedsRestock);
  }

  /** The values of the five stats tiles. */
  datatype Stats = Stats(
    todayCleanings: nat,
    todayCheckIns: nat,
    todayCheckOuts: nat,
    missingStock: nat,
    totalReservations: nat)

  /** `reservations.filter(r => r.checkOut === todayStr).length` */
  function CheckOutsOn(rs: seq<Reservation>, today: Date): (n: nat)
    ensures n == |set i | 0 <= i < |rs| && rs[i].checkOut == today| && n <= |rs|
  {
    assert Positions(rs, (r: Reservation) => ChecksOutOnDay(today, r)) == set i | 0 <= i < |rs| && rs[i].checkOut == today;
    Count(rs, (r: Reservation) => ChecksOutOnDay(today, r))
  }

  /** `reservations.filter(r => r.checkIn === todayStr).length` */
  function CheckInsOn(rs: seq<Reservation>, today: Date): (n: nat)
    ensures n == |set i | 0 <= i < |rs| && rs[i].checkIn == today| && n <= |rs|
  {
    assert Positions(rs, (r: Reservation) => ChecksInOnDay(today, r)) == set i | 0 <= i < |rs| && rs[i].checkIn == today;
    Count(rs, (r: Reservation) => ChecksInOnDay(today, r))
  }

  /**
   `stats`: cleanings and check-outs both count the reservations leaving
   today, check-ins those arriving today (each counted by position, so a
   reservation listed twice counts twice).
   */
  function TodayStats(rs: seq<Reservation>, inventory: seq<InventoryItem>, today: Date): (s: Stats)
    ensures s.todayCleanings == s.todayCheckOuts == |set i | 0 <= i < |rs| && rs[i].checkOut == today|
    ensures s.todayCheckIns == |set i | 0 <= i < |rs| && rs[i].checkIn == today|
    ensures s.todayCheckOuts <= s.totalReservations && s.todayCheckIns <= s.totalReservations
    ensures s.totalReservations == |rs|
    ensures s.missingStock == |ShoppingList(inventory)| <= |inventory|
  {
    Stats(CheckOutsOn(rs, today), CheckInsOn(rs, today), CheckOutsOn(rs, today), |ShoppingList(inventory)|, |rs|)
  }

  /** A turnover at some property today shows in both today's check-outs and check-ins. */
  lemma TodayTurnoverCounted(rs: seq<Reservation>, inventory: seq<InventoryItem>, today: Date, p: PropertyId)
    requires Collides(rs, p, today)
    ensures TodayStats(rs, inventory, today).todayCheckOuts >= 1
    ensures TodayStats(rs, inventory, today).todayCheckIns >= 1
  {
    var i :| 0 <= i < |rs| && rs[i].propertyId == p && rs[i].checkOut == today;
    var j :| 0 <= j < |rs| && rs[j].propertyId == p && rs[j].checkIn == today;
    var outs := set k | 0 <= k < |rs| && rs[k].checkOut == today;
    var ins := set k | 0 <= k < |rs| && rs[k].checkIn == today;
    assert {i} <= outs && {j} <= ins;
    assert |{i}| == 1 && |{j}| == 1;
  }
}
