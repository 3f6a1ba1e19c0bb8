# Field-service dispatch dashboard: the store and its projections, in Dafny

This project models the in-memory domain layer of a field-service dispatch
dashboard. Its store holds a current user, a roster of users (admins and
technicians), a list of service orders and a colour theme. The model covers
every store action as a pure transition between immutable states. It also
covers the rules the pages apply to that state:

- the role resolver and display name derived from the session's email;
- the password-change validation;
- the sidebar links per role;
- the role-filtered calendar events and map markers;
- the order board and the legacy order list, with their status tables, draft
  construction and selectors;
- the technician roster and its add form.

Layout of the project:

- `types.dfy` (`Types`): users, orders, drafts, the application state, `Option`.
- `seqs.dfy` (`Seqs`): the order-preserving `Filter` every list view uses.
- `store.dfy` (`Store`): the initial mock state and the eight store actions, with frame lemmas.
- `roles.dfy` (`Roles`): the role resolver, display name, current-user
  derivation, password check and navigation of the application shell.
- `visibility.dfy` (`Visibility`): who sees which orders, and the technician filter.
- `status_tables.dfy` (`StatusTables`): the status colour and label tables.
- `calendar.dfy`, `map_view.dfy`, `orders_page.dfy`, `legacy_orders.dfy`,
  `technicians.dfy`: one module per page.

Random ids (`Math.random`) and clock readings (`new Date()`) are parameters
(`freshId`, `now`) of the transitions that need them. Instants are integer
milliseconds. Coordinates are opaque reals.

The intended rules of the TypeScript application include two that its code
does not enforce; the model follows the code:

- Removing a technician should clear the orders assigned to it. The code does
  not cascade: `Store.RemoveTechnicianLeavesDangling` and
  `Store.InitialRemovalDangles` show the dangling references it leaves.
- Choosing the "not assigned" option should store null. The code stores the
  empty string. See `Store.AssignEmptyIsNotNull` and
  `OrdersPage.SelectorShowsChoice`. Only the creation form normalises `""`
  to null (`OrdersPage.DraftOf`).

Further behaviour of the code the model keeps:

- `addServiceOrder` appends locally with a client-made id. There is no
  refetch from a server.
- The store shown defines no `fetchServiceOrders`, `fetchTechnicians` or
  `removeServiceOrder`, although the shell and the order board read them from it.
- The technician form passes a password to `addTechnician`. The store's
  action takes only name and email, so the password is dropped.

The same technician filter appears at App/src/pages/OrdersPage.tsx:24,
App/src/pages/Orders.tsx:19 and App/src/pages/Technicians.tsx:12; it is
`Visibility.TechniciansOf`. Both order pages build the same draft
(App/src/pages/Orders.tsx:21-36 matches App/src/pages/OrdersPage.tsx:26-41);
it is `OrdersPage.DraftOf`. The calendar and the map apply the same
visibility filter; it is `Visibility.VisibleOrders`. The shell and the order
board apply the same admin rule; it is `Roles.IsAdminEmail`.

## Model

| member | source | states |
|---|---|---|
| Seqs.Filter | App/src/store/useAppStore.ts:75 | the kept elements are exactly those of the input that satisfy the predicate; when every element satisfies it the list is unchanged |
| Seqs.FilterAppend | App/src/store/useAppStore.ts:75 | filtering distributes over concatenation, so relative order is preserved |
| Store.Init | App/src/store/useAppStore.ts:23-56 | the initial state has no current user, dark theme, one admin and two technicians, and two pending orders with distinct ids |
| Store.FirstWithEmail | App/src/store/useAppStore.ts:59 | the search returns the first position holding the email, or nothing exactly when no user has it |
| Store.Login | App/src/store/useAppStore.ts:58-61 | the first user with the email becomes current; with no match the whole state is unchanged; nothing but the current user ever changes |
| Store.Logout | App/src/store/useAppStore.ts:63 | the current user becomes absent and nothing else changes |
| Store.LogoutUndoesLogin | App/src/store/useAppStore.ts:58-63 | logging out after any login gives the same state as logging out directly |
| Store.AddTechnician | App/src/store/useAppStore.ts:65-72 | exactly one technician with the given id, name and email is appended; earlier users are unchanged and in order |
| Store.DuplicateEmailShadowed | App/src/store/useAppStore.ts:58-72 | with no uniqueness check, a technician added with a taken email never becomes the login result for that email |
| Store.RemoveTechnician | App/src/store/useAppStore.ts:74-76 | the remaining users are exactly those without the id; orders, current user and theme are unchanged |
| Store.RemoveTechnicianLeavesDangling | App/src/store/useAppStore.ts:74-76 | an order assigned to the removed id keeps that assignment while no user with the id remains |
| Store.InitialRemovalDangles | App/src/store/useAppStore.ts:41-76 | in the initial state, removing user "2" leaves order os-2 assigned to "2" |
| Store.RemoveTechnicianIdempotent | App/src/store/useAppStore.ts:74-76 | removing the same id twice equals removing it once |
| Store.RemoveTechnicianKeepsOrder | App/src/store/useAppStore.ts:74-76 | removing an id from a roster split in two gives the removal from the first part followed by the removal from the second, so the kept users stay in order |
| Store.AddServiceOrder | App/src/store/useAppStore.ts:78-85 | the list grows by one; the earlier orders are unchanged; the new last order has the draft's fields, the fresh id, the creation time and status pending |
| Store.AddServiceOrderDistinct | App/src/store/useAppStore.ts:78-85 | appending keeps order ids distinct if and only if the fresh id is not already used |
| Store.Update | App/src/store/useAppStore.ts:88-90 | the result has the same length, with the update applied to matching records only |
| Store.SetStatus | App/src/store/useAppStore.ts:87-91 | length kept; matching orders take the new status whatever their old one; every other field and every other order is unchanged |
| Store.SetAssignee | App/src/store/useAppStore.ts:93-97 | length kept; matching orders take the given technician id verbatim; every other field and order is unchanged |
| Store.UpdateServiceOrderStatus | App/src/store/useAppStore.ts:87-91 | the order list keeps its length; orders with the id get the new status and nothing else changes in them; other orders, users, current user and theme are unchanged |
| Store.AssignServiceOrder | App/src/store/useAppStore.ts:93-97 | the order list keeps its length; orders with the id get the given technician id verbatim and nothing else changes in them; other orders, users, current user and theme are unchanged |
| Store.SetStatusAbsentIsNoop | App/src/store/useAppStore.ts:87-91 | a status update for an id no order has leaves the list unchanged |
| Store.SetStatusLastWins | App/src/store/useAppStore.ts:87-91 | two status updates on one id equal the second alone: no transition is forbidden |
| Store.SetAssigneeAbsentIsNoop | App/src/store/useAppStore.ts:93-97 | an assignment for an id no order has leaves the list unchanged |
| Store.AssignEmptyIsNotNull | App/src/store/useAppStore.ts:93-97 | assigning "" stores the empty string, not the absent value |
| Store.UpdatesKeepIds | App/src/store/useAppStore.ts:87-97 | status and assignment updates keep the sequence of order ids, so they create no duplicate ids |
| Store.ToggleTheme | App/src/store/useAppStore.ts:100-102 | the theme changes and nothing else does |
| Store.ToggleThemeInvolution | App/src/store/useAppStore.ts:99-102 | toggling twice restores the state |
| Roles.ContainsSpec | App/src/components/Layout.tsx:26 | the substring search is true exactly when the needle occurs at some position |
| Roles.IsAdminEmail | App/src/components/Layout.tsx:26 | admin exactly when an email is present and either contains "admin" (case-sensitive) or equals the support address |
| Roles.RoleOf | App/src/components/Layout.tsx:30 | the role is admin exactly when the admin rule holds, technician otherwise, including when the email is missing |
| Roles.SampleRoles | App/src/components/Layout.tsx:26-30 | admin@tech.com and the support address resolve to admin; john@tech.com and a missing email resolve to technician |
| Roles.BeforeAt | App/src/components/Layout.tsx:28 | the result is a prefix of the input without '@', followed by '@' unless it is the whole input |
| Roles.DisplayName | App/src/components/Layout.tsx:28 | the name is never empty; it is "User" without an email and for an email that is empty or starts with '@'; otherwise it is the part of the email before its first '@', the whole email when it has none |
| Roles.DisplayNameOfAddress | App/src/components/Layout.tsx:28 | for local@domain with a non-empty local part free of '@', the display name is exactly the local part |
| Roles.CurrentUser | App/src/components/Layout.tsx:23-32 | there is no current user, so nothing is rendered, exactly when there is no session; otherwise the name and role come from the email |
| Roles.CheckPasswordChange | App/src/components/Layout.tsx:69-77 | the password is accepted exactly when both fields agree and it has at least 6 characters; a mismatch is reported before the length error |
| Roles.Path | App/src/components/Layout.tsx:151-163 | dashboard links to /dashboard, orders to /orders, my-tasks to /my-tasks, calendar to /calendar and map to /map |
| Roles.PathsDistinct | App/src/components/Layout.tsx:151-163 | two destinations share a path exactly when they are the same destination |
| Roles.NavLinks | App/src/components/Layout.tsx:148-163 | calendar and map are always linked; dashboard and orders exactly for admins; my-tasks exactly for technicians |
| Visibility.VisibleOrders | App/src/pages/CalendarView.tsx:42-44 | an admin sees every order; anyone else sees exactly the orders assigned to their id |
| Visibility.TechniciansOf | App/src/pages/Technicians.tsx:12 | the technicians are exactly the users whose role is technician |
| Visibility.FilterUpdateCommute | App/src/pages/CalendarView.tsx:44 | filtering commutes with an order update that does not change the filtered property |
| Visibility.VisibleAfterStatusChange | App/src/pages/CalendarView.tsx:42-44 | each viewer's visible orders after a status change equal the status change applied to their earlier visible orders |
| Visibility.AssignedOrderIsVisible | App/src/pages/MapView.tsx:25-27 | once an order is assigned to a user, that user sees it |
| Visibility.UnassignedSeenByAdminsOnly | App/src/pages/MapView.tsx:25-27 | an unassigned order is visible exactly to admins |
| Visibility.RosterAfterRemoval | App/src/pages/Technicians.tsx:12 | the technician list after removing an id is the old list without that id, in the same order |
| Visibility.RosterAfterAdd | App/src/pages/Technicians.tsx:12 | adding a technician appends exactly it to the technician list |
| StatusTables.KindOf | App/src/pages/OrdersPage.tsx:60-66 | completed, in-progress and cancelled each get their own kind; every other tag is of the pending kind |
| StatusTables.CalendarColor | App/src/pages/CalendarView.tsx:54-60 | completed is #047857, in-progress #1d4ed8, cancelled #b91c1c, every other tag #d97706 |
| StatusTables.StatusText | App/src/pages/MapView.tsx:31-38 | completed is Concluído, in-progress Em Andamento, cancelled Cancelado, every other tag Pendente |
| StatusTables.BoardHue | App/src/pages/OrdersPage.tsx:51-58 | completed is emerald, in-progress blue, cancelled red, every other tag amber |
| StatusTables.LegacyHue | App/src/pages/Orders.tsx:46-53 | completed is green, in-progress blue, cancelled red, every other tag yellow |
| StatusTables.TablesAgree | App/src/pages/OrdersPage.tsx:51-67 | for every table, two tags get the same entry exactly when they are of the same kind |
| StatusTables.UnknownLooksPending | App/src/pages/MapView.tsx:36 | an unrecognised tag is shown exactly like pending in every table |
| Calendar.Events | App/src/pages/CalendarView.tsx:38-52 | no events without a current user; otherwise one event per visible order, in order, with its title and start; every event lasts exactly 7,200,000 ms |
| Calendar.EventColor | App/src/pages/CalendarView.tsx:54-60 | an event is emerald, blue or red when its order is completed, in progress or cancelled, and amber for every other status |
| Calendar.EventColorsSeparateKinds | App/src/pages/CalendarView.tsx:54-60 | two events share a colour exactly when their orders' statuses are of the same kind |
| Calendar.EventsAfterStatusChange | App/src/pages/CalendarView.tsx:42-50 | a status change keeps every event's title and times; an event's order is the old order with the new status when it matches, and unchanged otherwise |
| MapView.Markers | App/src/pages/MapView.tsx:23-56 | nothing is rendered exactly when there is no current user; otherwise one marker per visible order with its id, coordinates, title, address and label |
| MapView.MapMatchesCalendar | App/src/pages/MapView.tsx:25-27 | the map's marker keys are, position by position, the ids of the calendar events' orders |
| OrdersPage.IsAdmin | App/src/pages/OrdersPage.tsx:15 | the page's admin flag agrees with the shell's role for the same session and is false without a session |
| OrdersPage.AssigneeOf | App/src/pages/OrdersPage.tsx:37 | the empty selection becomes the absent value, any other value is kept, and "" is never produced |
| OrdersPage.SelectorValue | App/src/pages/OrdersPage.tsx:197 | the selector shows "" for no assignment and the stored id otherwise |
| OrdersPage.SelectorRoundTrip | App/src/pages/OrdersPage.tsx:197 | a selector value survives the trip through an assignment; every assignment except "" survives the trip through the selector |
| OrdersPage.DraftOf | App/src/pages/OrdersPage.tsx:28-38 | there is a draft exactly when a date is chosen; it copies title, description, date and address, uses the fixed coordinates, and converts the selection to an assignment |
| OrdersPage.Create | App/src/pages/OrdersPage.tsx:26-49 | with a date chosen, one pending order with the form's fields, the fixed coordinates, the fresh id and the creation time is appended, its assignment is never "" and shows the selected value again, nothing else in the store changes, and the form is reset to empty fields and no date and closed; without a date store and form are unchanged |
| OrdersPage.Board | App/src/pages/OrdersPage.tsx:174-226 | one card per order for every viewer; each card carries the order's label, colour and selector value; delete is offered exactly to admins; the empty state shows exactly when there are no orders |
| OrdersPage.ChooseAssignee | App/src/pages/OrdersPage.tsx:198 | the picked value is stored verbatim on the matching orders and nothing else in them changes; other orders, users, current user and theme are unchanged |
| OrdersPage.SelectorShowsChoice | App/src/pages/OrdersPage.tsx:197-198 | after a pick, the card's selector shows the picked value, "" included, and the store holds it as given |
| LegacyOrders.Rows | App/src/pages/Orders.tsx:152-196 | one card per order carrying its status, its colour, its assignment selector value and the same four status options |
| LegacyOrders.ChooseStatus | App/src/pages/Orders.tsx:190 | the picked status is stored on the matching orders and nothing else in them changes; other orders, users, current user and theme are unchanged |
| LegacyOrders.EveryOptionReachable | App/src/pages/Orders.tsx:187-196 | from any current status, each offered option can be picked, and the card then shows it |
| TechniciansPage.Roster | App/src/pages/Technicians.tsx:104-134 | the cards are exactly the technicians; the empty state shows exactly when there are none |
| TechniciansPage.Submit | App/src/pages/Technicians.tsx:14-23 | with all three fields filled, one technician is appended, orders, current user and theme are unchanged, and the form is cleared and closed; with any field empty, store and form are unchanged |
| TechniciansPage.SubmitAddsOneCard | App/src/pages/Technicians.tsx:16-17 | a successful submit adds exactly one card, at the end |
| TechniciansPage.RemoveCard | App/src/pages/Technicians.tsx:124 | the remove button removes the users with the card's own id and leaves the orders, current user and theme alone |
| TechniciansPage.RemoveCardDropsCard | App/src/pages/Technicians.tsx:124 | afterwards the roster is the old roster without that id, in order; the clicked card is gone |

## Left out

- `fetchServiceOrders`, `fetchTechnicians`, `removeServiceOrder`: the store shown does not define them, so the model invents no behaviour for them. The delete action is modelled only as the admin gate `OrdersPage.Board` reports.
- The remote persistence gateway, request ordering and concurrency: the store shown is synchronous and local.
- The login form (App/src/pages/Login.tsx) and session handling: they are external authentication calls. A session is an input.
- The password update call, its error message and the two-second close timer (App/src/components/Layout.tsx:79-95): these are I/O and timers. Only the validation outcome is modelled.
- CheckPasswordChange: the length is counted in Unicode characters, whereas the source counts UTF-16 code units. The two differ for characters outside the Basic Multilingual Plane.
- The shell's redirect to /login, its data-loading effect and the theme's effect on the document (App/src/components/Layout.tsx:34-52): these are side effects on the browser.
- The creation form's date field is `required`, so the browser does not submit it empty; the model keeps the empty field as `None` and lets `OrdersPage.Create` do nothing with it, which is what the handler does when the ISO conversion of an empty date fails.
- Date parsing and formatting (`new Date(...)`, `toISOString`, date-fns): instants are integer milliseconds, and an unparsable date is not modelled.
- Coordinates and the map's default centre: floating-point values, carried as opaque reals.
- Store.Init: the mock data reads the clock once per date field; the model takes a single `now` for all of them, so both orders having the same creation time is a consequence of the model, not a promise of the code.
- The fresh id from `Math.random` and the clock reading from `new Date()`: both are parameters, and freshness is not assumed. `Store.AddServiceOrderDistinct` states what a colliding id does.
- CSS class strings: only the colour family each status gets is modelled (`StatusTables.BoardHue`, `StatusTables.LegacyHue`).
- Calendar and map rendering, the browser's own `required`/`minLength` checks on form inputs, and the confirmation dialog before a delete: these belong to the browser and its widgets.
- The MyTasks page and the router (App/src/App.tsx): MyTasks is not part of this model, and the router only wires pages together.
