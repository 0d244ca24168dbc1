/**
 The portfolio scanner (`criticalDays`): every date on which some property has
 a turnover collision, grouped by date, restricted to dates from today on,
 sorted soonest first and cut to the first four.
 */
module PortfolioScanner {
  import opened JsString
  import opened JsArray
  import opened Records

  /** How many critical days the dashboard shows (`slice(0, 4)`). */
  const MaxCriticalDays := 4

  datatype CriticalDay = CriticalDay(date: Date, count: nat, propertyIds: seq<PropertyId>)

  ghost predicate NoDup<T>(s: seq<T>)
  {
    forall i, j :: 0 <= i < j < |s| ==> s[i] != s[j]
  }

  /** A sequence without repetitions is as long as the set of its elements (`Set.size`). */
  lemma {:induction false} NoDupSize<T>(s: seq<T>)
    requires NoDup(s)
    ensures |set x | x in s| == |s|
  {
    if s != [] {
      assert NoDup(s[1..]) by {
        forall i, j | 0 <= i < j < |s| - 1 ensures s[1..][i] != s[1..][j] {
          assert s[1..][i] == s[i + 1] && s[1..][j] == s[j + 1];
        }
      }
      NoDupSize(s[1..]);
      assert (set x | x in s) == {s[0]} + (set x | x in s[1..]) by {
        assert s == [s[0]] + s[1..];
      }
      assert s[0] !in s[1..] by {
        forall j | 0 <= j < |s| - 1 ensures s[1..][j] != s[0] {
          assert s[1..][j] == s[j + 1];
        }
      }
    }
  }

  /**
   The `datesMap` object: its keys in insertion order (the order
   `Object.entries` yields them) and, per key, the insertion-ordered
   contents of its `Set`.
   */
  ghost predicate WellFormedGroups(keys: seq<Date>, groups: map<Date, seq<PropertyId>>)
  {
    && NoDup(keys)
    && (forall d :: d in keys <==> d in groups)
    && (forall d :: d in groups ==> groups[d] != [] && NoDup(groups[d]))
  }

  /** `reservations.some(r => r.propertyId === p && r.checkIn === d)` */
  function HasCheckIn(rs: seq<Reservation>, p: PropertyId, d: Date): (b: bool)
    ensures b <==> ChecksInAt(rs, p, d)
  {
    Any(rs, (r: Reservation) => ChecksInOn(p, d, r))
  }

  lemma ChecksOutAtSnoc(rs: seq<Reservation>, i: nat, p: PropertyId, d: Date)
    requires i < |rs|
    ensures ChecksOutAt(rs[..i + 1], p, d) <==>
              ChecksOutAt(rs[..i], p, d) || (rs[i].propertyId == p && rs[i].checkOut == d)
  {
    assert rs[..i + 1] == rs[..i] + [rs[i]];
    if ChecksOutAt(rs[..i + 1], p, d) {
      var k :| 0 <= k < i + 1 && rs[..i + 1][k].propertyId == p && rs[..i + 1][k].checkOut == d;
      if k < i {
        assert rs[..i][k] == rs[k];
      }
    }
    if ChecksOutAt(rs[..i], p, d) {
      var k :| 0 <= k < i && rs[..i][k].propertyId == p && rs[..i][k].checkOut == d;
      assert rs[..i + 1][k] == rs[k];
    }
    if rs[i].propertyId == p && rs[i].checkOut == d {
      assert rs[..i + 1][i] == rs[i];
    }
  }

  /**
   First phase of `criticalDays`: for each reservation whose check-out date is
   some reservation's check-in date at the same property, add its property to
   the set kept under that date.
   */
  method GroupCollisions(rs: seq<Reservation>) returns (keys: seq<Date>, groups: map<Date, seq<PropertyId>>)
    ensures WellFormedGroups(keys, groups)
    ensures forall d, p :: d in groups && p in groups[d] <==> Collides(rs, p, d)
  {
    keys, groups := [], map[];
    for i := 0 to |rs|
      invariant WellFormedGroups(keys, groups)
      invariant forall d, p :: d in groups && p in groups[d] <==> ChecksOutAt(rs[..i], p, d) && ChecksInAt(rs, p, d)
    {
      var p, d := rs[i].propertyId, rs[i].checkOut;
      forall p', d' ensures ChecksOutAt(rs[..i + 1], p', d') <==>
                              ChecksOutAt(rs[..i], p', d') || (p' == p && d' == d) {
        ChecksOutAtSnoc(rs, i, p', d');
      }
      if HasCheckIn(rs, p, d) {
        if d !in groups {
          groups := groups[d := []];
          keys := keys + [d];
        }
        if p !in groups[d] {
          groups := groups[d := groups[d] + [p]];
        }
      }
    }
    assert rs[..|rs|] == rs;
  }

  /** The date `d` is one of the entries of `days`. */
  ghost predicate Shown(days: seq<CriticalDay>, d: Date)
  {
    exists i :: 0 <= i < |days| && days[i].date == d
  }

  ghost predicate SortedByDate(s: seq<CriticalDay>)
  {
    forall i, j :: 0 <= i < j < |s| ==> StrLe(s[i].date, s[j].date)
  }

  ghost predicate StrictlySortedByDate(s: seq<CriticalDay>)
  {
    forall i, j :: 0 <= i < j < |s| ==> StrLt(s[i].date, s[j].date)
  }

  ghost predicate DistinctDates(s: seq<CriticalDay>)
  {
    forall i, j :: 0 <= i < j < |s| ==> s[i].date != s[j].date
  }

  /**
   One insertion step of a stable sort by `date.localeCompare`: `x` goes
   before the first element whose date is not smaller than its own.
   */
  function Insert(x: CriticalDay, s: seq<CriticalDay>): (r: seq<CriticalDay>)
    ensures multiset(r) == multiset(s) + multiset{x}
  {
    if s == [] then [x]
    else if StrLe(x.date, s[0].date) then
      assert s == [s[0]] + s[1..];
      [x] + s
    else
      assert s == [s[0]] + s[1..];
      [s[0]] + Insert(x, s[1..])
  }

  lemma InsertMembers(x: CriticalDay, s: seq<CriticalDay>, y: CriticalDay)
    requires y in Insert(x, s)
    ensures y == x || y in s
  {
    assert y in multiset(Insert(x, s));
  }

  lemma {:induction false} InsertSorted(x: CriticalDay, s: seq<CriticalDay>)
    requires SortedByDate(s)
    ensures SortedByDate(Insert(x, s))
    decreases |s|
  {
    if s == [] {
    } else if StrLe(x.date, s[0].date) {
      var r := [x] + s;
      forall j | 0 < j < |r| ensures StrLe(x.date, r[j].date) {
        StrLeTotalOrder(x.date, s[0].date, s[j - 1].date);
      }
    } else {
      var rest := Insert(x, s[1..]);
      InsertSorted(x, s[1..]);
      StrLtTotal(x.date, s[0].date);
      StrLtAsymmetric(s[0].date, x.date);
      forall j | 0 <= j < |rest| ensures StrLe(s[0].date, rest[j].date) {
        InsertMembers(x, s[1..], rest[j]);
        if rest[j] != x {
          var k :| 0 <= k < |s| - 1 && s[1..][k] == rest[j];
          assert s[k + 1] == rest[j];
        }
      }
      var r := [s[0]] + rest;
      assert forall i, j :: 0 < i < j < |r| ==> StrLe(r[i].date, r[j].date) by {
        forall i, j | 0 < i < j < |r| ensures StrLe(r[i].date, r[j].date) {
          assert r[i] == rest[i - 1] && r[j] == rest[j - 1];
        }
      }
    }
  }

  lemma {:induction false} InsertStrictlySorted(x: CriticalDay, s: seq<CriticalDay>)
    requires StrictlySortedByDate(s)
    requires forall y :: y in s ==> y.date != x.date
    ensures StrictlySortedByDate(Insert(x, s))
    decreases |s|
  {
    if s == [] {
    } else if StrLe(x.date, s[0].date) {
      var r := [x] + s;
      StrLtTotal(x.date, s[0].date);
      forall j | 0 < j < |r| ensures StrLt(x.date, r[j].date) {
        if j > 1 {
          StrLtTransitive(x.date, s[0].date, s[j - 1].date);
        }
      }
    } else {
      var rest := Insert(x, s[1..]);
      assert s == [s[0]] + s[1..];
      InsertStrictlySorted(x, s[1..]);
      StrLtTotal(x.date, s[0].date);
      forall j | 0 <= j < |rest| ensures StrLt(s[0].date, rest[j].date) {
        InsertMembers(x, s[1..], rest[j]);
        if rest[j] != x {
          var k :| 0 <= k < |s| - 1 && s[1..][k] == rest[j];
          assert s[k + 1] == rest[j];
        }
      }
      var r := [s[0]] + rest;
      assert forall i, j :: 0 < i < j < |r| ==> StrLt(r[i].date, r[j].date) by {
        forall i, j | 0 < i < j < |r| ensures StrLt(r[i].date, r[j].date) {
          assert r[i] == rest[i - 1] && r[j] == rest[j - 1];
        }
      }
    }
  }

  /** `sort((a, b) => a.date.localeCompare(b.date))` as a stable insertion sort. */
  function SortByDate(s: seq<CriticalDay>): (r: seq<CriticalDay>)
    ensures multiset(r) == multiset(s)
  {
    if s == [] then []
    else
      assert s == [s[0]] + s[1..];
      Insert(s[0], SortByDate(s[1..]))
  }

  /**
   The sort orders by date, strictly when no two entries share a date (as
   the keys of one object never do).
   */
  lemma {:induction false} SortByDateSorted(s: seq<CriticalDay>)
    ensures SortedByDate(SortByDate(s))
    ensures DistinctDates(s) ==> StrictlySortedByDate(SortByDate(s))
  {
    if s != [] {
      var rest := SortByDate(s[1..]);
      SortByDateSorted(s[1..]);
      InsertSorted(s[0], rest);
      if DistinctDates(s) {
        forall y | y in rest ensures y.date != s[0].date {
          assert y in multiset(s[1..]);
          var k :| 0 <= k < |s| - 1 && s[1..][k] == y;
          assert s[k + 1] == y;
        }
        InsertStrictlySorted(s[0], rest);
      }
    }
  }

  lemma {:induction false} FilterDistinctDates(s: seq<CriticalDay>, f: CriticalDay -> bool)
    requires DistinctDates(s)
    ensures DistinctDates(Filter(s, f))
  {
    if s != [] {
      DistinctDatesTail(s);
      FilterDistinctDates(s[1..], f);
      var rest := Filter(s[1..], f);
      if f(s[0]) {
        var r := [s[0]] + rest;
        forall i, j | 0 <= i < j < |r| ensures r[i].date != r[j].date {
          assert r[j] == rest[j - 1];
          if i == 0 {
            FilterKeepsOthers(s, f, r[j]);
          } else {
            assert r[i] == rest[i - 1];
          }
        }
        assert Filter(s, f) == r;
      }
    }
  }

  lemma DistinctDatesTail(s: seq<CriticalDay>)
    requires s != [] && DistinctDates(s)
    ensures DistinctDates(s[1..])
  {
    var tail := s[1..];
    forall i, j | 0 <= i < j < |tail| ensures tail[i].date != tail[j].date {
      assert tail[i] == s[i + 1] && tail[j] == s[j + 1];
    }
  }

  /** What the filter keeps from the tail never shares the head's date. */
  lemma FilterKeepsOthers(s: seq<CriticalDay>, f: CriticalDay -> bool, y: CriticalDay)
    requires s != [] && DistinctDates(s)
    requires y in Filter(s[1..], f)
    ensures y.date != s[0].date
  {
    FilterKeeps(s[1..], f, y);
    var k :| 0 <= k < |s| - 1 && s[1..][k] == y;
    assert s[k + 1] == y;
  }

  function Min(a: int, b: int): int { if a < b then a else b }

  /** `Object.entries(datesMap).map(([date, props]) => ({date, count: props.size, propertyIds: Array.from(props)}))` */
  function Entries(keys: seq<Date>, groups: map<Date, seq<PropertyId>>): (entries: seq<CriticalDay>)
    requires forall d :: d in keys ==> d in groups
    ensures |entries| == |keys|
    ensures forall i :: 0 <= i < |keys| ==> entries[i].date == keys[i] && entries[i].propertyIds == groups[keys[i]]
  {
    seq(|keys|, i requires 0 <= i < |keys| => CriticalDay(keys[i], |groups[keys[i]]|, groups[keys[i]]))
  }

  /** `.filter(d => d.date >= todayStr)` */
  function Upcoming(entries: seq<CriticalDay>, today: Date): (r: seq<CriticalDay>)
  {
    Filter(entries, (e: CriticalDay) => StrLe(today, e.date))
  }

  lemma UpcomingKeeps(entries: seq<CriticalDay>, today: Date, x: CriticalDay)
    ensures x in Upcoming(entries, today) <==> x in entries && StrLe(today, x.date)
  {
    FilterKeeps(entries, (e: CriticalDay) => StrLe(today, e.date), x);
  }

  /** The entries from today on, soonest first: the list that `slice(0, 4)` cuts. */
  function Ranked(keys: seq<Date>, groups: map<Date, seq<PropertyId>>, today: Date): (sorted: seq<CriticalDay>)
    requires WellFormedGroups(keys, groups)
  {
    SortByDate(Upcoming(Entries(keys, groups), today))
  }

  /** Second phase of `criticalDays`: the entries from today on, soonest first, at most four. */
  function RankDays(keys: seq<Date>, groups: map<Date, seq<PropertyId>>, today: Date): (days: seq<CriticalDay>)
    requires WellFormedGroups(keys, groups)
    ensures |days| <= MaxCriticalDays
  {
    var sorted := Ranked(keys, groups, today);
    sorted[..Min(|sorted|, MaxCriticalDays)]
  }

  /** The keys of one object have distinct dates, so the sort orders them strictly. */
  lemma RankedStrictlySorted(keys: seq<Date>, groups: map<Date, seq<PropertyId>>, today: Date)
    requires WellFormedGroups(keys, groups)
    ensures StrictlySortedByDate(Ranked(keys, groups, today))
  {
    FilterDistinctDates(Entries(keys, groups), (e: CriticalDay) => StrLe(today, e.date));
    SortByDateSorted(Upcoming(Entries(keys, groups), today));
  }

  /** Exactly the entries of the keys from today on take part in the ranking. */
  lemma RankedMembers(keys: seq<Date>, groups: map<Date, seq<PropertyId>>, today: Date, x: CriticalDay)
    requires WellFormedGroups(keys, groups)
    ensures x in Ranked(keys, groups, today) <==> x in Entries(keys, groups) && StrLe(today, x.date)
  {
    var upcoming := Upcoming(Entries(keys, groups), today);
    assert x in Ranked(keys, groups, today) <==> x in multiset(upcoming);
    UpcomingKeeps(Entries(keys, groups), today, x);
  }

  /**
   Every shown entry is a key of the object from today on, carries that key's
   whole set, and counts it; the entries are strictly ascending by date.
   */
  lemma RankDaysSound(keys: seq<Date>, groups: map<Date, seq<PropertyId>>, today: Date)
    requires WellFormedGroups(keys, groups)
    ensures var days := RankDays(keys, groups, today);
      && StrictlySortedByDate(days)
      && forall i :: 0 <= i < |days| ==>
           && StrLe(today, days[i].date)
           && days[i].date in groups
           && days[i].propertyIds == groups[days[i].date]
           && days[i].count == |days[i].propertyIds|
  {
    var sorted := Ranked(keys, groups, today);
    var days := RankDays(keys, groups, today);
    var entries := Entries(keys, groups);
    RankedStrictlySorted(keys, groups, today);
    forall i | 0 <= i < |days|
      ensures StrLe(today, days[i].date) && days[i].date in groups
      ensures days[i].propertyIds == groups[days[i].date] && days[i].count == |days[i].propertyIds|
    {
      assert days[i] == sorted[i];
      RankedMembers(keys, groups, today, days[i]);
      var k :| 0 <= k < |entries| && entries[k] == days[i];
    }
  }

  /** A key from today on has its entry somewhere in the ranking. */
  lemma RankedHasKey(keys: seq<Date>, groups: map<Date, seq<PropertyId>>, today: Date, d: Date) returns (k: nat)
    requires WellFormedGroups(keys, groups)
    requires d in groups && StrLe(today, d)
    ensures k < |Ranked(keys, groups, today)| && Ranked(keys, groups, today)[k].date == d
  {
    assert d in keys;
    var i :| 0 <= i < |keys| && keys[i] == d;
    var e := Entries(keys, groups)[i];
    assert e.date == d && e in Entries(keys, groups);
    RankedMembers(keys, groups, today, e);
    var sorted := Ranked(keys, groups, today);
    k :| 0 <= k < |sorted| && sorted[k] == e;
  }

  /**
   A key of the object from today on that is not shown lies after all of the
   four shown dates.
   */
  lemma RankDaysComplete(keys: seq<Date>, groups: map<Date, seq<PropertyId>>, today: Date, d: Date)
    requires WellFormedGroups(keys, groups)
    requires d in groups && StrLe(today, d)
    ensures var days := RankDays(keys, groups, today);
      Shown(days, d) || (|days| == MaxCriticalDays && forall i :: 0 <= i < |days| ==> StrLt(days[i].date, d))
  {
    var sorted := Ranked(keys, groups, today);
    var days := RankDays(keys, groups, today);
    RankedStrictlySorted(keys, groups, today);
    var k := RankedHasKey(keys, groups, today, d);
    if k < MaxCriticalDays {
      assert days[k] == sorted[k];
    } else {
      forall j | 0 <= j < |days| ensures StrLt(days[j].date, d) {
        assert days[j] == sorted[j];
      }
    }
  }

  /**
   `criticalDays`: at most four dates from today on, strictly ascending; each
   lists, without repetition, exactly the properties that have a turnover
   collision that day; any collision date from today on that is missing is
   later than every listed one.
   */
  method CriticalDays(rs: seq<Reservation>, today: Date) returns (days: seq<CriticalDay>)
    ensures |days| <= MaxCriticalDays
    ensures StrictlySortedByDate(days)
    ensures forall i :: 0 <= i < |days| ==>
              && StrLe(today, days[i].date)
              && days[i].propertyIds != []
              && NoDup(days[i].propertyIds)
              && days[i].count == |days[i].propertyIds| == |set p | p in days[i].propertyIds|
    ensures forall i, p :: 0 <= i < |days| ==> (p in days[i].propertyIds <==> Collides(rs, p, days[i].date))
    ensures forall d, p :: Collides(rs, p, d) && StrLe(today, d) ==>
              Shown(days, d) || (|days| == MaxCriticalDays && forall i :: 0 <= i < |days| ==> StrLt(days[i].date, d))
  {
    var keys, groups := GroupCollisions(rs);
    days := RankDays(keys, groups, today);
    RankDaysSound(keys, groups, today);
    forall i | 0 <= i < |days| ensures |set p | p in days[i].propertyIds| == |days[i].propertyIds| {
      NoDupSize(days[i].propertyIds);
    }
    forall d, p | Collides(rs, p, d) && StrLe(today, d)
      ensures Shown(days, d) || (|days| == MaxCriticalDays && forall i :: 0 <= i < |days| ==> StrLt(days[i].date, d))
    {
      RankDaysComplete(keys, groups, today, d);
    }
  }
}
