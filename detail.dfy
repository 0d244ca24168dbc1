/**
 The collision-detail expander (`handleOpenCriticalDetail`, without the state
 update): for each requested property, in order, its display name and the
 first reservations leaving and arriving on the chosen date.
 */
module CriticalDetail {
  import opened Optional
  import opened JsString
  import opened JsArray
  import opened Records

  /** The name shown for a property id with no property record. */
  const UnknownName := "Desconocido"

  datatype Collision = Collision(
    propertyId: PropertyId,
    propertyName: string,
    outGuest: Option<Reservation>,
    inGuest: Option<Reservation>)

  datatype Detail = Detail(date: Date, collisions: seq<Collision>)

  predicate HasId(pid: PropertyId, p: Property)
  {
    p.id == pid
  }

  /**
   `property?.internalName || property?.name || 'Desconocido'` for the first
   property with id `pid`: never empty, the unknown marker when there is no
   such property, and otherwise that property's operational name, else its
   commercial name, else the marker.
   */
  function PropertyName(props: seq<Property>, pid: PropertyId): (name: string)
    ensures name != ""
    ensures (forall i :: 0 <= i < |props| ==> props[i].id != pid) ==> name == UnknownName
    ensures forall k :: IsFirst(props, (p: Property) => HasId(pid, p), k) ==>
              name == OrElse(Some(OrElse(props[k].internalName, props[k].name)), UnknownName)
  {
    var property := Find(props, (p: Property) => HasId(pid, p));
    assert forall k :: IsFirst(props, (p: Property) => HasId(pid, p), k) ==> property == Some(props[k]) by {
      forall k | IsFirst(props, (p: Property) => HasId(pid, p), k) ensures property == Some(props[k]) {
        FindIsFirst(props, (p: Property) => HasId(pid, p), k);
      }
    }
    match property
    case None => UnknownName
    case Some(p) => OrElse(Some(DisplayKey(p)), UnknownName)
  }

  /** One entry of the expansion, for property `pid` on `date`. */
  function Expand(date: Date, pid: PropertyId, rs: seq<Reservation>, props: seq<Property>): (c: Collision)
    ensures c.propertyId == pid
    ensures c.propertyName == PropertyName(props, pid)
    ensures c.outGuest.None? <==> !ChecksOutAt(rs, pid, date)
    ensures c.outGuest.Some? ==>
              exists k :: IsFirst(rs, (r: Reservation) => ChecksOutOn(pid, date, r), k) && rs[k] == c.outGuest.value
    ensures c.inGuest.None? <==> !ChecksInAt(rs, pid, date)
    ensures c.inGuest.Some? ==>
              exists k :: IsFirst(rs, (r: Reservation) => ChecksInOn(pid, date, r), k) && rs[k] == c.inGuest.value
  {
    var outGuest := Find(rs, (r: Reservation) => ChecksOutOn(pid, date, r));
    var inGuest := Find(rs, (r: Reservation) => ChecksInOn(pid, date, r));
    assert outGuest.None? <==> !ChecksOutAt(rs, pid, date) by {
      if ChecksOutAt(rs, pid, date) {
        var i :| 0 <= i < |rs| && rs[i].propertyId == pid && rs[i].checkOut == date;
        assert ChecksOutOn(pid, date, rs[i]);
      }
    }
    assert inGuest.None? <==> !ChecksInAt(rs, pid, date) by {
      if ChecksInAt(rs, pid, date) {
        var i :| 0 <= i < |rs| && rs[i].propertyId == pid && rs[i].checkIn == date;
        assert ChecksInOn(pid, date, rs[i]);
      }
    }
    Collision(pid, PropertyName(props, pid), outGuest, inGuest)
  }

  /**
   `handleOpenCriticalDetail(date, propertyIds)`: one entry per requested id,
   in the requested order, each the expansion of that id (its resolved name
   and the first reservations leaving and arriving); an entry's guests are
   absent exactly when no reservation at that property leaves, or arrives,
   on the date.
   */
  function OpenCriticalDetail(date: Date, pids: seq<PropertyId>, rs: seq<Reservation>, props: seq<Property>): (detail: Detail)
    ensures detail.date == date
    ensures |detail.collisions| == |pids|
    ensures forall i :: 0 <= i < |pids| ==> detail.collisions[i] == Expand(date, pids[i], rs, props)
    ensures forall i :: 0 <= i < |pids| ==>
              && detail.collisions[i].propertyId == pids[i]
              && detail.collisions[i].propertyName != ""
              && (detail.collisions[i].outGuest.None? <==> !ChecksOutAt(rs, pids[i], date))
              && (detail.collisions[i].inGuest.None? <==> !ChecksInAt(rs, pids[i], date))
              && (detail.collisions[i].outGuest.Some? ==>
                    detail.collisions[i].outGuest.value in rs
                    && ChecksOutOn(pids[i], date, detail.collisions[i].outGuest.value))
              && (detail.collisions[i].inGuest.Some? ==>
                    detail.collisions[i].inGuest.value in rs
                    && ChecksInOn(pids[i], date, detail.collisions[i].inGuest.value))
  {
    Detail(date, seq(|pids|, i requires 0 <= i < |pids| => Expand(date, pids[i], rs, props)))
  }

  /**
   Expanding a critical day found by the scanner finds both guests for every
   listed property.
   */
  lemma ScannerDayExpandsFully(date: Date, pids: seq<PropertyId>, rs: seq<Reservation>, props: seq<Property>)
    requires forall i :: 0 <= i < |pids| ==> Collides(rs, pids[i], date)
    ensures forall c :: c in OpenCriticalDetail(date, pids, rs, props).collisions ==> c.outGuest.Some? && c.inGuest.Some?
  {
  }
}

/** The watch and the expander agree on the guests of the watch's turnover. */
module WatchDetail {
  import opened Optional
  import opened JsArray
  import opened Records
  import opened PriorityWatch
  import opened CriticalDetail

  /**
   Expanding the watch's turnover for its property reports the very guests
   the watch reports.
   */
  lemma {:induction false} WatchExpandsToSameGuests(rs: seq<Reservation>, props: seq<Property>, today: Date)
    requires CasaAmpliaCritical(rs, props, today).Some?
    requires CasaAmpliaCritical(rs, props, today).value.Turnover?
    ensures var w := CasaAmpliaCritical(rs, props, today).value;
      var c := OpenCriticalDetail(w.date, [w.property.id], rs, props).collisions[0];
      && c.outGuest == Some(w.outGuest)
      && c.inGuest == w.inGuest
  {
    var w := CasaAmpliaCritical(rs, props, today).value;
    var pid, date := w.property.id, w.date;
    var c := Expand(date, pid, rs, props);
    assert OpenCriticalDetail(date, [pid], rs, props).collisions[0] == c;
    // The watch's outgoing guest is also the first reservation leaving on its date.
    var k :| IsFirst(rs, (r: Reservation) => IsUpcomingTurnover(rs, pid, today, r), k) && rs[k] == w.outGuest;
    forall j | 0 <= j < k ensures !ChecksOutOn(pid, date, rs[j]) {
      assert !IsUpcomingTurnover(rs, pid, today, rs[j]);
    }
    FindIsFirst(rs, (r: Reservation) => ChecksOutOn(pid, date, r), k);
    // The incoming guests are found by the same search.
    var m :| IsFirst(rs, (r: Reservation) => ChecksInOn(pid, date, r), m) && rs[m] == w.inGuest.value;
    FindIsFirst(rs, (r: Reservation) => ChecksInOn(pid, date, r), m);
  }
}
