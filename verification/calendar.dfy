/**
 The calendar page's projection: one event per order the current user may
 see, lasting a fixed two hours from the order's scheduled instant.
 */
module Calendar {
  import opened Types
  import opened Visibility
  import StatusTables
  import Store

  /** The fixed event length: 2 * 60 * 60 * 1000 milliseconds. */
  const EVENT_DURATION_MS: int := 2 * 60 * 60 * 1000

  /** A calendar event; `resource` is the order it was made from. */
  datatype Event = Event(title: string, start: int, end: int, resource: ServiceOrder)

  function EventOf(o: ServiceOrder): Event
  {
    Event(o.title, o.date, o.date + EVENT_DURATION_MS, o)
  }

  /** The events: none without a current user; otherwise one per visible
      order, in the same order, titled and starting as the order. */
  function Events(orders: seq<ServiceOrder>, current: Option<User>): (r: seq<Event>)
    ensures current.None? ==> r == []
    ensures current.Some? ==>
              var visible := VisibleOrders(orders, current.value);
              |r| == |visible|
              && forall i :: 0 <= i < |r| ==>
                   r[i].resource == visible[i] && r[i].title == visible[i].title
                   && r[i].start == visible[i].date
    ensures forall i :: 0 <= i < |r| ==> r[i].end - r[i].start == 7200000
    ensures current.Some? && current.value.role != Admin ==>
              forall i :: 0 <= i < |r| ==> r[i].resource.assignedTechnicianId == Some(current.value.id)
    ensures current.Some? && current.value.role == Admin ==> |r| == |orders|
  {
    match current
    case None => []
    case Some(u) =>
      var visible := VisibleOrders(orders, u);
      seq(|visible|, i requires 0 <= i < |visible| => EventOf(visible[i]))
  }

  /** The background colour of an event (`eventStyleGetter`), keyed by its
      order's status: amber unless the status is completed, in-progress or
      cancelled. */
  function EventColor(e: Event): (c: string)
    ensures StatusTables.KindOf(e.resource.status) == StatusTables.CompletedKind ==> c == StatusTables.EMERALD_HEX
    ensures StatusTables.KindOf(e.resource.status) == StatusTables.InProgressKind ==> c == StatusTables.BLUE_HEX
    ensures StatusTables.KindOf(e.resource.status) == StatusTables.CancelledKind ==> c == StatusTables.RED_HEX
    ensures StatusTables.KindOf(e.resource.status) == StatusTables.PendingKind ==> c == StatusTables.AMBER_HEX
  {
    StatusTables.CalendarColor(e.resource.status)
  }

  /** Two events share a colour exactly when their orders' statuses are of
      the same kind. */
  lemma EventColorsSeparateKinds(a: Event, b: Event)
    ensures EventColor(a) == EventColor(b)
            <==> StatusTables.KindOf(a.resource.status) == StatusTables.KindOf(b.resource.status)
  {
  }

  /** A status change shows up in the calendar as the same events with the
      order's new status: the event list's shape is unaffected. */
  lemma EventsAfterStatusChange(orders: seq<ServiceOrder>, current: Option<User>, id: string, status: string)
    ensures |Events(Store.SetStatus(orders, id, status), current)| == |Events(orders, current)|
    ensures forall i :: 0 <= i < |Events(orders, current)| ==>
              var before := Events(orders, current)[i];
              var after := Events(Store.SetStatus(orders, id, status), current)[i];
              after.title == before.title && after.start == before.start && after.end == before.end
              && after.resource == (if before.resource.id == id then before.resource.(status := status) else before.resource)
  {
    if current.Some? {
      VisibleAfterStatusChange(orders, current.value, id, status);
    }
  }
}
