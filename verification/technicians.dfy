/**
 The technician roster page: a card per technician with a remove button, and
 a form that adds a technician once all three of its fields are filled.
 */
module TechniciansPage {
  import opened Types
  import opened Seqs
  import opened Visibility
  import Store

  /** The add form; `isAdding` is whether it is open. */
  datatype TechForm = TechForm(name: string, email: string, password: string, isAdding: bool)

  const CLOSED_FORM: TechForm := TechForm("", "", "", false)

  /** What the page renders: the cards and whether the empty state shows. */
  datatype RosterView = RosterView(cards: seq<User>, showEmpty: bool)

  function Roster(s: AppState): (v: RosterView)
    ensures forall u :: u in v.cards <==> u in s.users && u.role == Technician
    ensures v.showEmpty <==> forall u :: u in s.users ==> u.role != Technician
  {
    var cards := TechniciansOf(s.users);
    assert |cards| > 0 ==> cards[0] in cards;
    RosterView(cards, |cards| == 0)
  }

  /** Submitting the form: with all three fields filled, the store gains the
      technician (the password goes no further: the store's action takes only
      name and email) and the form is cleared and closed; with any field
      empty nothing changes. */
  function Submit(s: AppState, form: TechForm, freshId: string): (r: (AppState, TechForm))
    ensures form.name != "" && form.email != "" && form.password != "" ==>
              r.1 == CLOSED_FORM
              && r.0.users == s.users + [User(freshId, form.name, form.email, Technician)]
              && r.0.serviceOrders == s.serviceOrders && r.0.currentUser == s.currentUser
              && r.0.theme == s.theme
    ensures form.name == "" || form.email == "" || form.password == "" ==> r == (s, form)
  {
    if form.name != "" && form.email != "" && form.password != "" then
      (Store.AddTechnician(s, freshId, form.name, form.email), CLOSED_FORM)
    else
      (s, form)
  }

  /** A successful submit adds exactly one card, last. */
  lemma SubmitAddsOneCard(s: AppState, form: TechForm, freshId: string)
    requires form.name != "" && form.email != "" && form.password != ""
    ensures Roster(Submit(s, form, freshId).0).cards
         == Roster(s).cards + [User(freshId, form.name, form.email, Technician)]
  {
    RosterAfterAdd(s.users, User(freshId, form.name, form.email, Technician));
  }

  /** The remove button of card `i`: removes by that card's own id. */
  function RemoveCard(s: AppState, i: int): (r: AppState)
    requires 0 <= i < |Roster(s).cards|
    ensures forall u :: u in r.users <==> u in s.users && u.id != Roster(s).cards[i].id
    ensures r.serviceOrders == s.serviceOrders
    ensures r.currentUser == s.currentUser && r.theme == s.theme
  {
    Store.RemoveTechnician(s, Roster(s).cards[i].id)
  }

  /** After a removal the roster is the old roster without that card's id, the
      other cards keeping their order; the clicked card is gone. */
  lemma RemoveCardDropsCard(s: AppState, i: int)
    requires 0 <= i < |Roster(s).cards|
    ensures Roster(RemoveCard(s, i)).cards == Filter(Roster(s).cards, Store.NotId(Roster(s).cards[i].id))
    ensures Roster(s).cards[i] !in Roster(RemoveCard(s, i)).cards
  {
    RosterAfterRemoval(s.users, Roster(s).cards[i].id);
  }
}
