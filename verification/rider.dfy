/** Riders (rider.py): a request for a trip from an origin to a destination,
    with a patience and a status. */
module Riders {
  import opened Locations

  /** Drivers and riders are told apart by their identifiers. */
  type Id = string

  /** The three status constants of rider.py, as a closed enumeration. */
  datatype Status = Waiting | Cancelled | Satisfied

  /** The string each status constant holds in the source. */
  function StatusName(s: Status): string {
    match s
    case Waiting => "waiting"
    case Cancelled => "cancelled"
    case Satisfied => "satisfied"
  }

  lemma {:induction false} StatusNamesDistinct(a: Status, b: Status)
    ensures StatusName(a) == StatusName(b) ==> a == b
  {
  }

  datatype Rider = Rider(id: Id, origin: Location, destination: Location, patience: int, status: Status)

  /** `Rider(identifier, origin, destination, patience)`: a new rider is waiting. */
  function NewRider(id: Id, origin: Location, destination: Location, patience: int): (r: Rider)
    ensures r.status == Waiting
    ensures r.id == id && r.origin == origin && r.destination == destination && r.patience == patience
  {
    Rider(id, origin, destination, patience, Waiting)
  }

  /** `Rider.__eq__`: patience, id, origin, destination and status all agree. */
  predicate Equal(a: Rider, b: Rider) {
    && a.patience == b.patience && a.id == b.id
    && a.origin == b.origin && a.destination == b.destination
    && a.status == b.status
  }

  /** The source's equality compares every field, so it is value equality. */
  lemma {:induction false} EqualIsValueEquality(a: Rider, b: Rider)
    ensures Equal(a, b) <==> a == b
  {
  }
}
