/**
 The order board (the routed orders page): the admin gate derived from the
 session, the creation form's draft, and one row per order with its status
 badge, assignment selector and, for admins, a delete action.
 */
module OrdersPage {
  import opened Types
  import opened Visibility
  import Roles
  import Store
  import StatusTables

  /** The page's admin flag, from the session's email by the shell's rule;
      false without a session. */
  function IsAdmin(session: Option<Roles.AuthUser>): (r: bool)
    ensures r ==> session.Some?
    ensures r <==> Roles.CurrentUser(session).Some? && Roles.CurrentUser(session).value.role == Admin
  {
    session.Some? && Roles.IsAdminEmail(session.value.email)
  }

  /** The coordinates every new order gets until geocoding exists. */
  const MOCK_LAT: real := -23.5505
  const MOCK_LNG: real := -46.6333

  /** The creation form. `date` is the chosen instant, `None` while the date
      field is empty; `assignedTech` is the selector's value, "" for the "not
      assigned" option; `isCreating` is whether the form is open. */
  datatype OrderForm = OrderForm(title: string, description: string, address: string,
                                 date: Option<int>, assignedTech: string, isCreating: bool)

  /** The reset, closed form: every text field empty and no date chosen. */
  const EMPTY_FORM: OrderForm := OrderForm("", "", "", None, "", false)

  /** The assignment a selector value stands for: `value || null`. */
  function AssigneeOf(value: string): (a: Option<string>)
    ensures a == None <==> value == ""
    ensures value != "" ==> a == Some(value)
    ensures a != Some("")
  {
    if value == "" then None else Some(value)
  }

  /** The value a selector shows for an assignment: `assignment || ""`. */
  function SelectorValue(assignment: Option<string>): (v: string)
    ensures assignment.None? ==> v == ""
    ensures assignment.Some? ==> v == assignment.value
  {
    if assignment.None? then "" else assignment.value
  }

  /** The selector and the draft's assignment are inverse to each other: a
      value survives the trip, and so does every assignment except the empty
      string, which comes back as "not assigned". */
  lemma SelectorRoundTrip(value: string, assignment: Option<string>)
    ensures SelectorValue(AssigneeOf(value)) == value
    ensures assignment != Some("") ==> AssigneeOf(SelectorValue(assignment)) == assignment
    ensures AssigneeOf(SelectorValue(Some(""))) == None
  {
  }

  /** The draft `handleCreate` hands to `addServiceOrder`. Without a date
      there is none: converting the empty date field to an ISO string fails
      before the store is called. */
  function DraftOf(form: OrderForm): (d: Option<Draft>)
    ensures d.None? <==> form.date.None?
    ensures d.Some? ==>
              d.value.title == form.title && d.value.description == form.description
              && Some(d.value.date) == form.date
              && d.value.location == Location(MOCK_LAT, MOCK_LNG, form.address)
              && d.value.assignedTechnicianId == AssigneeOf(form.assignedTech)
  {
    match form.date
    case None => None
    case Some(date) =>
      Some(Draft(form.title, form.description, date, Location(MOCK_LAT, MOCK_LNG, form.address),
                 AssigneeOf(form.assignedTech)))
  }

  /** Submitting the form: with a date chosen, the store gains the order and
      the form is reset and closed; without one the handler fails before the
      store is called, and store and form stay as they were. */
  function Create(s: AppState, form: OrderForm, freshId: string, now: int): (r: (AppState, OrderForm))
    ensures form.date.None? ==> r == (s, form)
    ensures form.date.Some? ==>
              r.1 == EMPTY_FORM
              && r.0.users == s.users && r.0.currentUser == s.currentUser && r.0.theme == s.theme
              && |r.0.serviceOrders| == |s.serviceOrders| + 1
              && r.0.serviceOrders[..|s.serviceOrders|] == s.serviceOrders
              && var o := r.0.serviceOrders[|s.serviceOrders|];
                 o.title == form.title && o.description == form.description
                 && o.location.address == form.address && Some(o.date) == form.date
                 && o.location == Location(MOCK_LAT, MOCK_LNG, form.address)
                 && o.status == PENDING && o.id == freshId && o.createdAt == now
                 && SelectorValue(o.assignedTechnicianId) == form.assignedTech
                 && o.assignedTechnicianId != Some("")
  {
    match DraftOf(form)
    case None => (s, form)
    case Some(d) =>
      SelectorRoundTrip(form.assignedTech, d.assignedTechnicianId);
      (Store.AddServiceOrder(s, d, freshId, now), EMPTY_FORM)
  }

  /** One card of the board. */
  datatype Row = Row(order: ServiceOrder, statusText: string, hue: StatusTables.Hue,
                     selector: string, canDelete: bool)

  function RowOf(o: ServiceOrder, isAdmin: bool): Row
  {
    Row(o, StatusTables.StatusText(o.status), StatusTables.BoardHue(o.status),
        SelectorValue(o.assignedTechnicianId), isAdmin)
  }

  /** What the board renders: the cards, the technicians offered by every
      selector, and whether the empty-state panel shows. */
  datatype BoardView = BoardView(rows: seq<Row>, choices: seq<User>, showEmpty: bool)

  /** Every order gets a card, whatever the viewer's role; only admins are
      offered the delete action. */
  function Board(s: AppState, session: Option<Roles.AuthUser>): (b: BoardView)
    ensures |b.rows| == |s.serviceOrders|
    ensures forall i :: 0 <= i < |b.rows| ==>
              b.rows[i].order == s.serviceOrders[i]
              && b.rows[i].selector == SelectorValue(s.serviceOrders[i].assignedTechnicianId)
              && b.rows[i].statusText == StatusTables.StatusText(s.serviceOrders[i].status)
              && b.rows[i].hue == StatusTables.BoardHue(s.serviceOrders[i].status)
              && (b.rows[i].canDelete <==> IsAdmin(session))
    ensures b.choices == TechniciansOf(s.users)
    ensures b.showEmpty <==> |s.serviceOrders| == 0
  {
    var admin := IsAdmin(session);
    BoardView(seq(|s.serviceOrders|, i requires 0 <= i < |s.serviceOrders| => RowOf(s.serviceOrders[i], admin)),
              TechniciansOf(s.users),
              |s.serviceOrders| == 0)
  }

  /** A pick in a card's selector reaches the store verbatim: the matching
      orders take the picked value, "" included, and nothing else changes. */
  function ChooseAssignee(s: AppState, osId: string, value: string): (r: AppState)
    ensures |r.serviceOrders| == |s.serviceOrders|
    ensures forall i :: 0 <= i < |s.serviceOrders| ==>
              if s.serviceOrders[i].id == osId
              then r.serviceOrders[i] == s.serviceOrders[i].(assignedTechnicianId := Some(value))
              else r.serviceOrders[i] == s.serviceOrders[i]
    ensures r.users == s.users && r.currentUser == s.currentUser && r.theme == s.theme
  {
    Store.AssignServiceOrder(s, osId, value)
  }

  /** After a pick, the picked card's selector shows the picked value, the
      "not assigned" option included, though the store now holds "" rather
      than the absent value for it. */
  lemma SelectorShowsChoice(s: AppState, session: Option<Roles.AuthUser>, osId: string, value: string, i: int)
    requires 0 <= i < |s.serviceOrders| && s.serviceOrders[i].id == osId
    ensures Board(ChooseAssignee(s, osId, value), session).rows[i].selector == value
    ensures ChooseAssignee(s, osId, value).serviceOrders[i].assignedTechnicianId == Some(value)
  {
  }
}
