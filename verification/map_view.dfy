/**
 The map page's projection: nothing without a current user, otherwise one
 marker per visible order at the order's coordinates.
 */
module MapView {
  import opened Types
  import opened Visibility
  import StatusTables
  import Calendar

  /** A marker with the contents of its popup. */
  datatype Marker = Marker(key: string, lat: real, lng: real, title: string, address: string, statusLabel: string)

  function MarkerOf(o: ServiceOrder): Marker
  {
    Marker(o.id, o.location.lat, o.location.lng, o.title, o.location.address, StatusTables.StatusText(o.status))
  }

  /** `None` is the page rendering nothing. */
  function Markers(orders: seq<ServiceOrder>, current: Option<User>): (r: Option<seq<Marker>>)
    ensures r.None? <==> current.None?
    ensures r.Some? ==>
              var visible := VisibleOrders(orders, current.value);
              |r.value| == |visible|
              && forall i :: 0 <= i < |visible| ==>
                   var m := r.value[i];
                   m.key == visible[i].id && m.lat == visible[i].location.lat
                   && m.lng == visible[i].location.lng && m.title == visible[i].title
                   && m.address == visible[i].location.address
                   && m.statusLabel == StatusTables.StatusText(visible[i].status)
    ensures r.Some? && current.value.role != Admin ==>
              forall m :: m in r.value ==>
                exists o :: o in orders && o.id == m.key && o.assignedTechnicianId == Some(current.value.id)
  {
    match current
    case None => None
    case Some(u) =>
      var visible := VisibleOrders(orders, u);
      Some(seq(|visible|, i requires 0 <= i < |visible| => MarkerOf(visible[i])))
  }

  /** The map and the calendar show the same orders: marker keys are the ids
      of the calendar events' orders, position by position. */
  lemma MapMatchesCalendar(orders: seq<ServiceOrder>, u: User)
    ensures var ms := Markers(orders, Some(u)).value;
            var es := Calendar.Events(orders, Some(u));
            |ms| == |es| && forall i :: 0 <= i < |ms| ==> ms[i].key == es[i].resource.id
  {
  }
}
