/**
 The store's records as the dashboard reads them, and the turnover-collision
 relation that the scanner, the watch and the expander all test.
 */
module Records {
  import opened Optional
  import opened JsString

  type Date = string          // ISO `YYYY-MM-DD`
  type PropertyId = string

  datatype Property = Property(id: PropertyId, name: string, internalName: Option<string>)

  /** `p.internalName || p.name`: the operational name, else the commercial one. */
  function DisplayKey(p: Property): string
  {
    OrElse(p.internalName, p.name)
  }

  datatype Reservation = Reservation(
    id: string,
    propertyId: PropertyId,
    guestName: string,
    checkIn: Date,
    checkOut: Date)

  datatype InventoryItem = InventoryItem(id: string, name: string, stock: int, minStock: int)

  /** Reservation `r` is at property `pid` and checks out on `d`. */
  predicate ChecksOutOn(pid: PropertyId, d: Date, r: Reservation)
  {
    r.propertyId == pid && r.checkOut == d
  }

  /** Reservation `r` is at property `pid` and checks in on `d`. */
  predicate ChecksInOn(pid: PropertyId, d: Date, r: Reservation)
  {
    r.propertyId == pid && r.checkIn == d
  }

  /** Reservation `r` checks out on `d`, at any property. */
  predicate ChecksOutOnDay(d: Date, r: Reservation) { r.checkOut == d }

  /** Reservation `r` checks in on `d`, at any property. */
  predicate ChecksInOnDay(d: Date, r: Reservation) { r.checkIn == d }

  /** Some reservation at property `p` checks out on `d`. */
  ghost predicate ChecksOutAt(rs: seq<Reservation>, p: PropertyId, d: Date)
  {
    exists i :: 0 <= i < |rs| && rs[i].propertyId == p && rs[i].checkOut == d
  }

  /** Some reservation at property `p` checks in on `d`. */
  ghost predicate ChecksInAt(rs: seq<Reservation>, p: PropertyId, d: Date)
  {
    exists i :: 0 <= i < |rs| && rs[i].propertyId == p && rs[i].checkIn == d
  }

  /**
   Property `p` has a turnover collision on `d`. The outgoing and the incoming
   stay may be the same reservation (one whose check-in equals its check-out).
   */
  ghost predicate Collides(rs: seq<Reservation>, p: PropertyId, d: Date)
  {
    ChecksOutAt(rs, p, d) && ChecksInAt(rs, p, d)
  }
}
