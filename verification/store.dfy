/**
 The application store: an initial state with the mock roster and orders, and
 one pure transition per store action. Random ids and clock readings are
 parameters (`freshId`, `now`) of the transitions that need them.
 */
module Store {
  import opened Types
  import opened Seqs

  const DAY_MS: int := 86400000

  /** The state the store starts in: nobody logged in, dark theme, three mock
      users and two mock orders created at `now`, the second one scheduled a
      day later and assigned to the user with id "2". */
  function Init(now: int): (s: AppState)
    ensures s.currentUser == None && s.theme == Dark
    ensures |s.users| == 3 && |s.serviceOrders| == 2
    ensures s.users[0].role == Admin
    ensures forall i :: 1 <= i < |s.users| ==> s.users[i].role == Technician
    ensures forall o :: o in s.serviceOrders ==> o.status == PENDING && o.createdAt == now
    ensures DistinctIds(s.serviceOrders)
  {
    AppState(
      None,
      [ User("1", "Admin User", "admin@tech.com", Admin),
        User("2", "John Tech", "john@tech.com", Technician),
        User("3", "Jane Tech", "jane@tech.com", Technician) ],
      [ ServiceOrder("os-1", "Repair AC Unit", "AC unit not cooling in server room.", now,
                     Location(-23.5505, -46.6333, "Av. Paulista, 1000"), PENDING, None, now),
        ServiceOrder("os-2", "Install Router", "New office setup requires high-end router.", now + DAY_MS,
                     Location(-23.5615, -46.6550, "Rua Augusta, 500"), PENDING, Some("2"), now) ],
      Dark)
  }

  /** `k` is the position of the first user whose email is `email`. */
  ghost predicate IsFirstWithEmail(users: seq<User>, email: string, k: int)
  {
    0 <= k < |users| && users[k].email == email
    && forall j :: 0 <= j < k ==> users[j].email != email
  }

  /** The position `Array.prototype.find` stops at, if any. */
  function FirstWithEmail(users: seq<User>, email: string): (r: Option<nat>)
    ensures r.Some? ==> IsFirstWithEmail(users, email, r.value)
    ensures r.None? <==> forall j :: 0 <= j < |users| ==> users[j].email != email
  {
    if |users| == 0 then None
    else if users[0].email == email then Some(0)
    else match FirstWithEmail(users[1..], email)
      case None => None
      case Some(k) => Some(k + 1)
  }

  /** `login`: the first user with that email becomes the current user; when
      no user has it the state is left exactly as it was. */
  function Login(s: AppState, email: string): (r: AppState)
    ensures r.users == s.users && r.serviceOrders == s.serviceOrders && r.theme == s.theme
    ensures (forall j :: 0 <= j < |s.users| ==> s.users[j].email != email) ==> r == s
    ensures (exists j :: 0 <= j < |s.users| && s.users[j].email == email) ==>
              exists k :: IsFirstWithEmail(s.users, email, k) && r.currentUser == Some(s.users[k])
  {
    match FirstWithEmail(s.users, email)
    case None => s
    case Some(k) => s.(currentUser := Some(s.users[k]))
  }

  /** `logout`: only the current user is cleared. */
  function Logout(s: AppState): (r: AppState)
    ensures r.currentUser == None
    ensures r.users == s.users && r.serviceOrders == s.serviceOrders && r.theme == s.theme
  {
    s.(currentUser := None)
  }

  /** `addTechnician`: appends one technician with the given name and email.
      Neither the id nor the email is checked for uniqueness. */
  function AddTechnician(s: AppState, freshId: string, name: string, email: string): (r: AppState)
    ensures |r.users| == |s.users| + 1
    ensures r.users[..|s.users|] == s.users
    ensures r.users[|s.users|] == User(freshId, name, email, Technician)
    ensures r.currentUser == s.currentUser && r.serviceOrders == s.serviceOrders && r.theme == s.theme
  {
    s.(users := s.users + [User(freshId, name, email, Technician)])
  }

  /** The predicate kept by `removeTechnician`'s filter. */
  function NotId(id: string): User -> bool
  {
    (u: User) => u.id != id
  }

  /** `removeTechnician`: drops every user with that id, whatever its role, and
      keeps the others in order. Orders are not touched, so an order assigned
      to the removed id keeps that assignment; the current user is kept too. */
  function RemoveTechnician(s: AppState, id: string): (r: AppState)
    ensures forall u :: u in r.users <==> u in s.users && u.id != id
    ensures (forall j :: 0 <= j < |s.users| ==> s.users[j].id != id) ==> r.users == s.users
    ensures |r.users| <= |s.users|
    ensures r.serviceOrders == s.serviceOrders
    ensures r.currentUser == s.currentUser && r.theme == s.theme
  {
    s.(users := Filter(s.users, NotId(id)))
  }

  /** The order `addServiceOrder` builds from a draft. */
  function FromDraft(d: Draft, freshId: string, now: int): ServiceOrder
  {
    ServiceOrder(freshId, d.title, d.description, d.date, d.location, PENDING, d.assignedTechnicianId, now)
  }

  /** `addServiceOrder`: appends one pending order carrying the draft's fields,
      a fresh id and the creation time; earlier orders are unchanged. */
  function AddServiceOrder(s: AppState, d: Draft, freshId: string, now: int): (r: AppState)
    ensures |r.serviceOrders| == |s.serviceOrders| + 1
    ensures r.serviceOrders[..|s.serviceOrders|] == s.serviceOrders
    ensures var o := r.serviceOrders[|s.serviceOrders|];
              o.id == freshId && o.status == PENDING && o.createdAt == now
              && o.title == d.title && o.description == d.description && o.date == d.date
              && o.location == d.location && o.assignedTechnicianId == d.assignedTechnicianId
    ensures r.currentUser == s.currentUser && r.users == s.users && r.theme == s.theme
  {
    s.(serviceOrders := s.serviceOrders + [FromDraft(d, freshId, now)])
  }

  /** Applies `f` to every order whose id is `id` and leaves the others alone:
      the `map` both order updates are built from. */
  function Update(orders: seq<ServiceOrder>, id: string, f: ServiceOrder -> ServiceOrder): (r: seq<ServiceOrder>)
    ensures |r| == |orders|
    ensures forall i :: 0 <= i < |orders| ==>
              r[i] == if orders[i].id == id then f(orders[i]) else orders[i]
  {
    if |orders| == 0 then []
    else [if orders[0].id == id then f(orders[0]) else orders[0]] + Update(orders[1..], id, f)
  }

  function WithStatus(status: string): ServiceOrder -> ServiceOrder
  {
    (o: ServiceOrder) => o.(status := status)
  }

  function WithAssignee(technicianId: string): ServiceOrder -> ServiceOrder
  {
    (o: ServiceOrder) => o.(assignedTechnicianId := Some(technicianId))
  }

  /** The order list after `updateServiceOrderStatus`: matching orders take the
      new status, whatever their current one, and no other field changes. */
  function SetStatus(orders: seq<ServiceOrder>, id: string, status: string): (r: seq<ServiceOrder>)
    ensures |r| == |orders|
    ensures forall i :: 0 <= i < |orders| ==>
              r[i] == orders[i].(status := r[i].status)
              && (orders[i].id == id ==> r[i].status == status)
              && (orders[i].id != id ==> r[i] == orders[i])
  {
    Update(orders, id, WithStatus(status))
  }

  /** The order list after `assignServiceOrder`: matching orders take the given
      technician id verbatim, the empty string included, and no other field
      changes. The id is not checked against the roster. */
  function SetAssignee(orders: seq<ServiceOrder>, id: string, technicianId: string): (r: seq<ServiceOrder>)
    ensures |r| == |orders|
    ensures forall i :: 0 <= i < |orders| ==>
              r[i] == orders[i].(assignedTechnicianId := r[i].assignedTechnicianId)
              && (orders[i].id == id ==> r[i].assignedTechnicianId == Some(technicianId))
              && (orders[i].id != id ==> r[i] == orders[i])
  {
    Update(orders, id, WithAssignee(technicianId))
  }

  /** `updateServiceOrderStatus`: only the order list changes, and in it only
      the status of the orders with that id. */
  function UpdateServiceOrderStatus(s: AppState, id: string, status: string): (r: AppState)
    ensures |r.serviceOrders| == |s.serviceOrders|
    ensures forall i :: 0 <= i < |s.serviceOrders| ==>
              if s.serviceOrders[i].id == id then r.serviceOrders[i] == s.serviceOrders[i].(status := status)
              else r.serviceOrders[i] == s.serviceOrders[i]
    ensures r.currentUser == s.currentUser && r.users == s.users && r.theme == s.theme
  {
    s.(serviceOrders := SetStatus(s.serviceOrders, id, status))
  }

  /** `assignServiceOrder`: only the order list changes, and in it only the
      assignment of the orders with that id, set to the given string. */
  function AssignServiceOrder(s: AppState, osId: string, technicianId: string): (r: AppState)
    ensures |r.serviceOrders| == |s.serviceOrders|
    ensures forall i :: 0 <= i < |s.serviceOrders| ==>
              if s.serviceOrders[i].id == osId
              then r.serviceOrders[i] == s.serviceOrders[i].(assignedTechnicianId := Some(technicianId))
              else r.serviceOrders[i] == s.serviceOrders[i]
    ensures r.currentUser == s.currentUser && r.users == s.users && r.theme == s.theme
  {
    s.(serviceOrders := SetAssignee(s.serviceOrders, osId, technicianId))
  }

  /** `toggleTheme`: flips between light and dark and changes nothing else. */
  function ToggleTheme(s: AppState): (r: AppState)
    ensures r.theme != s.theme
    ensures r.currentUser == s.currentUser && r.users == s.users && r.serviceOrders == s.serviceOrders
  {
    s.(theme := if s.theme == Light then Dark else Light)
  }

  // ---------------------------------------------------------------------------
  // Properties relating several transitions
  // ---------------------------------------------------------------------------

  /** Toggling the theme twice restores the state. */
  lemma ToggleThemeInvolution(s: AppState)
    ensures ToggleTheme(ToggleTheme(s)) == s
  {
  }

  /** Logging out after a login leaves the same state as logging out directly:
      login touches nothing but the current user. */
  lemma LogoutUndoesLogin(s: AppState, email: string)
    ensures Logout(Login(s, email)) == Logout(s)
  {
  }

  /** The first user with an email is still the first one after more users are
      appended behind it. */
  lemma {:induction false} FirstWithEmailAppend(a: seq<User>, b: seq<User>, email: string)
    requires FirstWithEmail(a, email).Some?
    ensures FirstWithEmail(a + b, email) == FirstWithEmail(a, email)
  {
    var k := FirstWithEmail(a, email).value;
    assert IsFirstWithEmail(a + b, email, k);
  }

  /** Since `addTechnician` does not reject an email that is already taken,
      the duplicate can never be logged into: login keeps resolving the email
      to the earlier user. */
  lemma DuplicateEmailShadowed(s: AppState, freshId: string, name: string, email: string)
    requires exists j :: 0 <= j < |s.users| && s.users[j].email == email
    ensures Login(AddTechnician(s, freshId, name, email), email).currentUser
         == Login(s, email).currentUser
  {
    FirstWithEmailAppend(s.users, [User(freshId, name, email, Technician)], email);
  }

  /** Removing a technician does not cascade: every order that was assigned to
      the removed id is still there, still assigned to it, while no user with
      that id remains. */
  lemma RemoveTechnicianLeavesDangling(s: AppState, id: string, o: ServiceOrder)
    requires o in s.serviceOrders && o.assignedTechnicianId == Some(id)
    ensures var r := RemoveTechnician(s, id);
              o in r.serviceOrders && forall u :: u in r.users ==> u.id != id
  {
  }

  /** The initial mock data already exhibits a dangling reference after
      removing user "2". */
  lemma InitialRemovalDangles(now: int)
    ensures var r := RemoveTechnician(Init(now), "2");
              r.serviceOrders[1].assignedTechnicianId == Some("2")
              && forall u :: u in r.users ==> u.id != "2"
  {
  }

  /** Removing the same id twice removes nothing more. */
  lemma RemoveTechnicianIdempotent(s: AppState, id: string)
    ensures RemoveTechnician(RemoveTechnician(s, id), id) == RemoveTechnician(s, id)
  {
    FilterIdempotent(s.users, NotId(id));
  }

  /** Removal keeps order: removing from a roster split in two is removing
      from each part. */
  lemma RemoveTechnicianKeepsOrder(s: AppState, a: seq<User>, b: seq<User>, id: string)
    ensures RemoveTechnician(s.(users := a + b), id).users
         == RemoveTechnician(s.(users := a), id).users + RemoveTechnician(s.(users := b), id).users
  {
    FilterAppend(a, b, NotId(id));
  }

  /** An absent id leaves the order list as it was. */
  lemma SetStatusAbsentIsNoop(orders: seq<ServiceOrder>, id: string, status: string)
    requires forall i :: 0 <= i < |orders| ==> orders[i].id != id
    ensures SetStatus(orders, id, status) == orders
  {
  }

  /** Any status is reachable from any status, and the last update wins. */
  lemma SetStatusLastWins(orders: seq<ServiceOrder>, id: string, first: string, second: string)
    ensures SetStatus(SetStatus(orders, id, first), id, second) == SetStatus(orders, id, second)
  {
  }

  /** Assigning to an absent order id leaves the order list as it was. */
  lemma SetAssigneeAbsentIsNoop(orders: seq<ServiceOrder>, id: string, technicianId: string)
    requires forall i :: 0 <= i < |orders| ==> orders[i].id != id
    ensures SetAssignee(orders, id, technicianId) == orders
  {
  }

  /** Choosing "unassigned" stores the empty string, not the absent value. */
  lemma AssignEmptyIsNotNull(orders: seq<ServiceOrder>, id: string, i: int)
    requires 0 <= i < |orders| && orders[i].id == id
    ensures SetAssignee(orders, id, "")[i].assignedTechnicianId == Some("")
    ensures SetAssignee(orders, id, "")[i].assignedTechnicianId != None
  {
  }

  /** Status and assignment updates never change which ids exist, so they
      cannot create duplicate ids. */
  lemma UpdatesKeepIds(orders: seq<ServiceOrder>, id: string, status: string, technicianId: string)
    ensures Ids(SetStatus(orders, id, status)) == Ids(orders)
    ensures Ids(SetAssignee(orders, id, technicianId)) == Ids(orders)
  {
  }

  /** Adding an order keeps ids distinct exactly when the fresh id is unused. */
  lemma AddServiceOrderDistinct(s: AppState, d: Draft, freshId: string, now: int)
    requires DistinctIds(s.serviceOrders)
    ensures DistinctIds(AddServiceOrder(s, d, freshId, now).serviceOrders)
            <==> freshId !in Ids(s.serviceOrders)
  {
    var r := AddServiceOrder(s, d, freshId, now).serviceOrders;
    var n := |s.serviceOrders|;
    if freshId in Ids(s.serviceOrders) {
      var i :| 0 <= i < n && Ids(s.serviceOrders)[i] == freshId;
      assert r[i].id == r[n].id;
    } else {
      forall i, j | 0 <= i < j < |r|
        ensures r[i].id != r[j].id
      {
        if j == n {
          assert r[i].id == Ids(s.serviceOrders)[i];
        } else {
          assert r[i] == s.serviceOrders[i] && r[j] == s.serviceOrders[j];
        }
      }
    }
  }
}
