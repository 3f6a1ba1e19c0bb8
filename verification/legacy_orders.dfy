/**
 The legacy order list (not routed): the same creation form and assignment
 selector as the order board, a different colour key, and a status selector
 that offers every status for every order.
 */
module LegacyOrders {
  import opened Types
  import Store
  import StatusTables
  import OrdersPage

  /** The status selector's options, in display order. */
  const STATUS_OPTIONS: seq<string> := [PENDING, IN_PROGRESS, COMPLETED, CANCELLED]

  /** One card of the legacy list. */
  datatype Row = Row(order: ServiceOrder, hue: StatusTables.Hue, statusSelector: string,
                     options: seq<string>, assigneeSelector: string)

  function RowOf(o: ServiceOrder): Row
  {
    Row(o, StatusTables.LegacyHue(o.status), o.status, STATUS_OPTIONS,
        OrdersPage.SelectorValue(o.assignedTechnicianId))
  }

  /** One card per order, in store order; every card offers the same four
      statuses whatever its order's current status. */
  function Rows(orders: seq<ServiceOrder>): (r: seq<Row>)
    ensures |r| == |orders|
    ensures forall i :: 0 <= i < |r| ==>
              r[i].order == orders[i] && r[i].statusSelector == orders[i].status
              && r[i].hue == StatusTables.LegacyHue(orders[i].status)
              && r[i].assigneeSelector == OrdersPage.SelectorValue(orders[i].assignedTechnicianId)
              && |r[i].options| == 4
              && (forall opt :: opt in r[i].options <==> opt in {PENDING, IN_PROGRESS, COMPLETED, CANCELLED})
  {
    seq(|orders|, i requires 0 <= i < |orders| => RowOf(orders[i]))
  }

  /** A pick in a card's status selector reaches the store verbatim: the
      matching orders take the picked status and nothing else changes. */
  function ChooseStatus(s: AppState, osId: string, option: string): (r: AppState)
    ensures |r.serviceOrders| == |s.serviceOrders|
    ensures forall i :: 0 <= i < |s.serviceOrders| ==>
              if s.serviceOrders[i].id == osId
              then r.serviceOrders[i] == s.serviceOrders[i].(status := option)
              else r.serviceOrders[i] == s.serviceOrders[i]
    ensures r.users == s.users && r.currentUser == s.currentUser && r.theme == s.theme
  {
    Store.UpdateServiceOrderStatus(s, osId, option)
  }

  /** No transition is forbidden: from any current status, each offered
      option can be picked and the card then shows it. */
  lemma EveryOptionReachable(s: AppState, i: int, k: int)
    requires 0 <= i < |s.serviceOrders| && 0 <= k < |STATUS_OPTIONS|
    ensures var o := s.serviceOrders[i];
            var after := ChooseStatus(s, o.id, Rows(s.serviceOrders)[i].options[k]);
            Rows(after.serviceOrders)[i].statusSelector == STATUS_OPTIONS[k]
  {
  }
}
