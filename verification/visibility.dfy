/**
 The role-based views of the store's collections shared by the pages: which
 orders a logged-in user sees, and which users are technicians.
 */
module Visibility {
  import opened Types
  import opened Seqs
  import Store

  /** The predicate of the non-admin order filter. */
  function AssignedTo(userId: string): ServiceOrder -> bool
  {
    (o: ServiceOrder) => o.assignedTechnicianId == Some(userId)
  }

  /** The orders the calendar and the map show: everything for an admin,
      otherwise exactly the orders assigned to the viewer, in store order. */
  function VisibleOrders(orders: seq<ServiceOrder>, viewer: User): (r: seq<ServiceOrder>)
    ensures viewer.role == Admin ==> r == orders
    ensures viewer.role != Admin ==>
              forall o :: o in r <==> o in orders && o.assignedTechnicianId == Some(viewer.id)
    ensures |r| <= |orders|
  {
    if viewer.role == Admin then orders else Filter(orders, AssignedTo(viewer.id))
  }

  function IsTechnician(u: User): bool
  {
    u.role == Technician
  }

  /** The users offered for assignment and listed on the roster: exactly those
      whose role is technician, in store order. */
  function TechniciansOf(users: seq<User>): (r: seq<User>)
    ensures forall u :: u in r <==> u in users && u.role == Technician
    ensures |r| <= |users|
  {
    Filter(users, IsTechnician)
  }

  /** Filtering commutes with an update that does not change the filtered
      property. */
  lemma {:induction false} FilterUpdateCommute(orders: seq<ServiceOrder>, id: string,
                                               f: ServiceOrder -> ServiceOrder, p: ServiceOrder -> bool)
    requires forall o :: p(f(o)) == p(o)
    ensures Filter(Store.Update(orders, id, f), p) == Store.Update(Filter(orders, p), id, f)
  {
    if |orders| > 0 {
      FilterUpdateCommute(orders[1..], id, f, p);
      assert Store.Update(orders, id, f)[1..] == Store.Update(orders[1..], id, f);
    }
  }

  /** A status change reaches every viewer's projection unchanged: the view of
      the updated list is the update of the view, since status does not
      affect visibility. */
  lemma VisibleAfterStatusChange(orders: seq<ServiceOrder>, viewer: User, id: string, status: string)
    ensures VisibleOrders(Store.SetStatus(orders, id, status), viewer)
         == Store.SetStatus(VisibleOrders(orders, viewer), id, status)
  {
    if viewer.role != Admin {
      FilterUpdateCommute(orders, id, Store.WithStatus(status), AssignedTo(viewer.id));
    }
  }

  /** After an order is assigned to a user, that user sees it. */
  lemma AssignedOrderIsVisible(orders: seq<ServiceOrder>, osId: string, viewer: User, i: int)
    requires 0 <= i < |orders| && orders[i].id == osId
    ensures Store.SetAssignee(orders, osId, viewer.id)[i]
            in VisibleOrders(Store.SetAssignee(orders, osId, viewer.id), viewer)
  {
  }

  /** An order nobody is assigned to is seen by admins only. */
  lemma UnassignedSeenByAdminsOnly(orders: seq<ServiceOrder>, viewer: User, o: ServiceOrder)
    requires o in orders && o.assignedTechnicianId == None
    ensures o in VisibleOrders(orders, viewer) <==> viewer.role == Admin
  {
  }

  /** Removing a user commutes with the technician filter: the roster after a
      removal is the old roster without that id, in the same order. */
  lemma RosterAfterRemoval(users: seq<User>, id: string)
    ensures TechniciansOf(Filter(users, Store.NotId(id))) == Filter(TechniciansOf(users), Store.NotId(id))
  {
    FilterCommute(users, Store.NotId(id), IsTechnician);
  }

  /** Adding a technician appends exactly that technician to the roster. */
  lemma RosterAfterAdd(users: seq<User>, u: User)
    requires u.role == Technician
    ensures TechniciansOf(users + [u]) == TechniciansOf(users) + [u]
  {
    FilterAppend(users, [u], IsTechnician);
  }
}
