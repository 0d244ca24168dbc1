/**
 Concrete cases: two stays back to back at one property (what the scanner and
 the watch report for them), and a property whose reservations are not listed
 in date order (the watch then reports a later collision than the earliest).
 */
module WorkedCases {
  import opened Optional
  import opened JsString
  import opened JsArray
  import opened Records
  import opened PortfolioScanner
  import opened PriorityWatch

  const CasaAmplia := Property("p1", "Casa Amplia", None)

  /** Ana leaves on 2024-06-10 and Luis arrives the same day. */
  function TwoStays(): seq<Reservation>
  {
    [Reservation("r1", "p1", "Ana", "2024-06-01", "2024-06-10"),
     Reservation("r2", "p1", "Luis", "2024-06-10", "2024-06-15")]
  }

  lemma TwoStaysCollisions(p: PropertyId, d: Date)
    ensures Collides(TwoStays(), p, d) <==> p == "p1" && d == "2024-06-10"
  {
    var rs := TwoStays();
    if p == "p1" && d == "2024-06-10" {
      assert rs[0].checkOut == d && rs[1].checkIn == d;
    }
  }

  lemma CasaAmpliaIsPriority()
    ensures IsPriority(CasaAmplia)
  {
    assert ToUpper("Casa Amplia") == "CASA AMPLIA";
    assert OccursAt("CASA AMPLIA", PriorityMarker, 0);
  }

  /** `b >= a` for two dates where `a` is the earlier, differing first at position `k`. */
  lemma Later(a: Date, b: Date, k: nat)
    requires k < |a| && k < |b| && a[..k] == b[..k] && a[k] < b[k]
    ensures StrLt(a, b) && StrLe(a, b)
  {
    StrLtAt(a, b, k);
    StrLtAsymmetric(a, b);
  }

  /**
   Two stays at a priority property, the second arriving the day the first
   leaves, from today on: the watch reports that day with both guests.
   */
  lemma BackToBackWatch(p: Property, a: Reservation, b: Reservation, today: Date)
    requires IsPriority(p)
    requires a.propertyId == p.id && b.propertyId == p.id
    requires b.checkIn == a.checkOut && a.checkIn != a.checkOut
    requires StrLe(today, a.checkOut)
    ensures CasaAmpliaCritical([a, b], [p], today) == Some(Turnover(p, a.checkOut, a, Some(b)))
  {
    var rs := [a, b];
    FindIsFirst([p], IsPriority, 0);
    assert IsUpcomingTurnover(rs, p.id, today, a) by {
      assert rs[1] == b;
    }
    FindIsFirst(rs, (r: Reservation) => IsUpcomingTurnover(rs, p.id, today, r), 0);
    assert !ChecksInOn(p.id, a.checkOut, rs[0]) && ChecksInOn(p.id, a.checkOut, rs[1]);
    FindIsFirst(rs, (r: Reservation) => ChecksInOn(p.id, a.checkOut, r), 1);
  }

  /** For any today up to 2024-06-10, the watch reports that day, Ana leaving and Luis arriving. */
  lemma TwoStaysWatch(today: Date)
    requires StrLe(today, "2024-06-10")
    ensures var rs := TwoStays();
      CasaAmpliaCritical(rs, [CasaAmplia], today) == Some(Turnover(CasaAmplia, "2024-06-10", rs[0], Some(rs[1])))
  {
    var rs := TwoStays();
    CasaAmpliaIsPriority();
    assert rs == [rs[0], rs[1]];
    BackToBackWatch(CasaAmplia, rs[0], rs[1], today);
  }

  /** July's turnover is listed before June's. */
  function UnorderedStays(): seq<Reservation>
  {
    [Reservation("a", "p1", "Ana", "2024-07-01", "2024-07-10"),
     Reservation("b", "p1", "Luis", "2024-07-10", "2024-07-12"),
     Reservation("c", "p1", "Marta", "2024-06-01", "2024-06-05"),
     Reservation("d", "p1", "Jorge", "2024-06-05", "2024-06-08")]
  }

  /**
   The watch takes the first qualifying reservation in list order: for any
   today up to 2024-06-05 it reports 2024-07-10, although 2024-06-05 is an
   earlier collision from today on.
   */
  lemma WatchTakesListOrder(today: Date)
    requires StrLe(today, "2024-06-05")
    ensures var w := CasaAmpliaCritical(UnorderedStays(), [CasaAmplia], today);
      && w.Some? && w.value.Turnover?
      && w.value.date == "2024-07-10"
      && Collides(UnorderedStays(), "p1", "2024-06-05")
      && StrLt("2024-06-05", w.value.date)
  {
    var rs := UnorderedStays();
    JuneBeforeJuly(today);
    CasaAmpliaIsPriority();
    FirstListedTurnover(CasaAmplia, rs, today);
    UnorderedJuneCollision();
  }

  lemma JuneBeforeJuly(today: Date)
    requires StrLe(today, "2024-06-05")
    ensures StrLt("2024-06-05", "2024-07-10") && StrLe(today, "2024-07-10")
  {
    Later("2024-06-05", "2024-07-10", 6);
    StrLeTotalOrder(today, "2024-06-05", "2024-07-10");
  }

  lemma UnorderedJuneCollision()
    ensures Collides(UnorderedStays(), "p1", "2024-06-05")
  {
    var rs := UnorderedStays();
    assert rs[2].checkOut == "2024-06-05" && rs[3].checkIn == "2024-06-05";
  }

  /** A priority property's watch reports the first listed stay that leaves into an arrival. */
  lemma FirstListedTurnover(p: Property, rs: seq<Reservation>, today: Date)
    requires IsPriority(p)
    requires |rs| >= 2 && rs[0].propertyId == p.id && rs[1].propertyId == p.id
    requires rs[1].checkIn == rs[0].checkOut && StrLe(today, rs[0].checkOut)
    ensures var w := CasaAmpliaCritical(rs, [p], today);
      w.Some? && w.value.Turnover? && w.value.date == rs[0].checkOut
  {
    FindIsFirst([p], IsPriority, 0);
    assert IsUpcomingTurnover(rs, p.id, today, rs[0]) by {
      assert rs[1].propertyId == p.id && rs[1].checkIn == rs[0].checkOut;
    }
    FindIsFirst(rs, (r: Reservation) => IsUpcomingTurnover(rs, p.id, today, r), 0);
  }
}

/** The scanner on the two back-to-back stays. */
module ScannerCase {
  import opened JsString
  import opened Records
  import opened PortfolioScanner
  import opened WorkedCases

  lemma SingleDate(days: seq<CriticalDay>, d: Date)
    requires StrictlySortedByDate(days)
    requires forall i :: 0 <= i < |days| ==> days[i].date == d
    ensures |days| <= 1
  {
    assert |days| >= 2 ==> StrLt(days[0].date, days[1].date);
    StrLtIrreflexive(d);
  }

  lemma SingleId(ids: seq<PropertyId>, p: PropertyId)
    requires ids != [] && NoDup(ids)
    requires forall j :: 0 <= j < |ids| ==> ids[j] == p
    ensures ids == [p]
  {
    NoDupSize(ids);
    assert (set x | x in ids) == {p};
  }

  /** Every day the scanner lists for the two stays is 2024-06-10. */
  lemma OnlyTurnoverDay(days: seq<CriticalDay>)
    requires forall i :: 0 <= i < |days| ==> days[i].propertyIds != []
    requires forall i, p :: 0 <= i < |days| ==> (p in days[i].propertyIds <==> Collides(TwoStays(), p, days[i].date))
    ensures forall i :: 0 <= i < |days| ==> days[i].date == "2024-06-10"
  {
    forall i | 0 <= i < |days| ensures days[i].date == "2024-06-10" {
      TwoStaysCollisions(days[i].propertyIds[0], days[i].date);
    }
  }

  /** The one property listed on 2024-06-10 is "p1". */
  lemma OnlyTurnoverProperty(ids: seq<PropertyId>)
    requires ids != [] && NoDup(ids)
    requires forall p :: p in ids <==> Collides(TwoStays(), p, "2024-06-10")
    ensures ids == ["p1"]
  {
    forall j | 0 <= j < |ids| ensures ids[j] == "p1" {
      TwoStaysCollisions(ids[j], "2024-06-10");
    }
    SingleId(ids, "p1");
  }

  /** For any today up to 2024-06-10, the scanner lists that single day with the one property. */
  method TwoStaysScan(today: Date) returns (days: seq<CriticalDay>)
    requires StrLe(today, "2024-06-10")
    ensures days == [CriticalDay("2024-06-10", 1, ["p1"])]
  {
    var rs := TwoStays();
    TwoStaysCollisions("p1", "2024-06-10");
    days := CriticalDays(rs, today);
    OnlyTurnoverDay(days);
    SingleDate(days, "2024-06-10");
    assert |days| == 1;
    OnlyTurnoverProperty(days[0].propertyIds);
  }
}
