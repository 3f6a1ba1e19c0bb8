/**
 The domain records of the dispatch dashboard: users, service orders and the
 application state the store holds. Collections are immutable sequences, the
 store's operations (module Store) are pure transitions between states.
 */
module Types {

  /** A value that may be absent: the TypeScript application's `T | null`
      and optional fields. */
  datatype Option<+T> = None | Some(value: T)

  datatype Role = Admin | Technician

  datatype Theme = Light | Dark

  /** The status tags the application writes. A status is kept as the raw tag
      string: every table over statuses has a default branch, and the status
      selector hands the store whatever string it was given. */
  const PENDING: string := "pending"
  const IN_PROGRESS: string := "in-progress"
  const COMPLETED: string := "completed"
  const CANCELLED: string := "cancelled"

  datatype User = User(id: string, name: string, email: string, role: Role)

  /** Coordinates are floating point in the TypeScript application and are
      never computed on; they are carried as opaque reals. */
  datatype Location = Location(lat: real, lng: real, address: string)

  /** `date` and `createdAt` are instants in milliseconds since the epoch. */
  datatype ServiceOrder = ServiceOrder(
    id: string,
    title: string,
    description: string,
    date: int,
    location: Location,
    status: string,
    assignedTechnicianId: Option<string>,
    createdAt: int)

  /** The argument of `addServiceOrder`: an order without id, status and
      creation time, which the store supplies. */
  datatype Draft = Draft(
    title: string,
    description: string,
    date: int,
    location: Location,
    assignedTechnicianId: Option<string>)

  datatype AppState = AppState(
    currentUser: Option<User>,
    users: seq<User>,
    serviceOrders: seq<ServiceOrder>,
    theme: Theme)

  /** The ids of a list of orders, in order. */
  function Ids(orders: seq<ServiceOrder>): (r: seq<string>)
    ensures |r| == |orders|
    ensures forall i :: 0 <= i < |orders| ==> r[i] == orders[i].id
  {
    seq(|orders|, i requires 0 <= i < |orders| => orders[i].id)
  }

  /** No two orders share an id. */
  ghost predicate DistinctIds(orders: seq<ServiceOrder>)
  {
    forall i, j :: 0 <= i < j < |orders| ==> orders[i].id != orders[j].id
  }
}
