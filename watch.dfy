/**
 The priority-property watch (`casaAmpliaCritical`): the first property whose
 operational (else commercial) name contains "CASA AMPLIA", ignoring case,
 and its next turnover collision from today on, with both guests.
 */
module PriorityWatch {
  import opened Optional
  import opened JsString
  import opened JsArray
  import opened Records

  const PriorityMarker := "CASA AMPLIA"

  /** `(p.internalName || p.name).toUpperCase().includes("CASA AMPLIA")` */
  predicate IsPriority(p: Property)
  {
    Includes(ToUpper(DisplayKey(p)), PriorityMarker)
  }

  /**
   `res` is at property `pid`, checks out today or later, and some reservation
   at `pid` checks in on that day.
   */
  predicate IsUpcomingTurnover(rs: seq<Reservation>, pid: PropertyId, today: Date, res: Reservation)
  {
    && res.propertyId == pid
    && StrLe(today, res.checkOut)
    && Any(rs, (r: Reservation) => ChecksInOn(pid, res.checkOut, r))
  }

  /**
   The watch's value when a priority property exists: either the property is
   clear (`date: null`), or the date of its collision with the guest leaving
   and the guest arriving.
   */
  datatype WatchResult =
    | Clear(property: Property)
    | Turnover(property: Property, date: Date, outGuest: Reservation, inGuest: Option<Reservation>)

  /**
   `casaAmpliaCritical`: absent exactly when no property matches the marker;
   otherwise the first matching property, clear exactly when it has no
   collision from today on, and else the first of its reservations (in list
   order) that checks out into a check-in from today on, together with the
   first reservation checking in on that day.
   */
  function CasaAmpliaCritical(rs: seq<Reservation>, props: seq<Property>, today: Date): (w: Option<WatchResult>)
    ensures w.None? <==> forall i :: 0 <= i < |props| ==> !IsPriority(props[i])
    ensures w.Some? ==> exists k :: IsFirst(props, IsPriority, k) && props[k] == w.value.property
    ensures w.Some? && w.value.Clear? ==>
              forall d :: StrLe(today, d) ==> !Collides(rs, w.value.property.id, d)
    ensures w.Some? && w.value.Turnover? ==>
              var pid, date := w.value.property.id, w.value.date;
              && StrLe(today, date)
              && Collides(rs, pid, date)
              && w.value.outGuest.propertyId == pid
              && w.value.outGuest.checkOut == date
              && (exists k :: IsFirst(rs, (r: Reservation) => IsUpcomingTurnover(rs, pid, today, r), k) && rs[k] == w.value.outGuest)
              && w.value.inGuest.Some?
              && (exists k :: IsFirst(rs, (r: Reservation) => ChecksInOn(pid, date, r), k) && rs[k] == w.value.inGuest.value)
  {
    match Find(props, IsPriority)
    case None => None
    case Some(casaAmplia) =>
      var pid := casaAmplia.id;
      match Find(rs, (r: Reservation) => IsUpcomingTurnover(rs, pid, today, r))
      case None =>
        assert forall d :: StrLe(today, d) ==> !Collides(rs, pid, d) by {
          forall d | StrLe(today, d) && ChecksOutAt(rs, pid, d) ensures !ChecksInAt(rs, pid, d) {
            var i :| 0 <= i < |rs| && rs[i].propertyId == pid && rs[i].checkOut == d;
            assert !IsUpcomingTurnover(rs, pid, today, rs[i]);
          }
        }
        Some(Clear(casaAmplia))
      case Some(criticalRes) =>
        var date := criticalRes.checkOut;
        var inGuest := Find(rs, (r: Reservation) => ChecksInOn(pid, date, r));
        assert ChecksOutAt(rs, pid, date) by {
          var k :| IsFirst(rs, (r: Reservation) => IsUpcomingTurnover(rs, pid, today, r), k) && rs[k] == criticalRes;
        }
        assert inGuest.Some? by {
          var j :| 0 <= j < |rs| && rs[j].propertyId == pid && rs[j].checkIn == date;
          assert ChecksInOn(pid, date, rs[j]);
        }
        Some(Turnover(casaAmplia, date, criticalRes, inGuest))
  }
}
