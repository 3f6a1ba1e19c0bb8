/**
 The tables that present a status tag: the calendar's event colours, the
 localized labels of the map and the order board, and the colour keys of the
 order board and the legacy order list. Each table names completed,
 in-progress and cancelled explicitly and sends every other tag, "pending"
 included, to its default entry.
 */
module StatusTables {
  import opened Types

  /** The four presentations a tag can get. */
  datatype Kind = PendingKind | InProgressKind | CompletedKind | CancelledKind

  /** The classification every table applies. */
  function KindOf(status: string): (k: Kind)
    ensures k == CompletedKind <==> status == COMPLETED
    ensures k == InProgressKind <==> status == IN_PROGRESS
    ensures k == CancelledKind <==> status == CANCELLED
  {
    if status == COMPLETED then CompletedKind
    else if status == IN_PROGRESS then InProgressKind
    else if status == CANCELLED then CancelledKind
    else PendingKind
  }

  const AMBER_HEX: string := "#d97706"
  const EMERALD_HEX: string := "#047857"
  const BLUE_HEX: string := "#1d4ed8"
  const RED_HEX: string := "#b91c1c"

  /** The calendar's event background: amber unless one of the three later
      tests matches. */
  function CalendarColor(status: string): (c: string)
    ensures status == COMPLETED ==> c == EMERALD_HEX
    ensures status == IN_PROGRESS ==> c == BLUE_HEX
    ensures status == CANCELLED ==> c == RED_HEX
    ensures status != COMPLETED && status != IN_PROGRESS && status != CANCELLED ==> c == AMBER_HEX
  {
    var c0 := AMBER_HEX;
    var c1 := if status == COMPLETED then EMERALD_HEX else c0;
    var c2 := if status == IN_PROGRESS then BLUE_HEX else c1;
    if status == CANCELLED then RED_HEX else c2
  }

  /** The localized label of the map popups and the order board. */
  function StatusText(status: string): (t: string)
    ensures status == COMPLETED ==> t == "Concluído"
    ensures status == IN_PROGRESS ==> t == "Em Andamento"
    ensures status == CANCELLED ==> t == "Cancelado"
    ensures status != COMPLETED && status != IN_PROGRESS && status != CANCELLED ==> t == "Pendente"
  {
    match KindOf(status)
    case CompletedKind => "Concluído"
    case InProgressKind => "Em Andamento"
    case CancelledKind => "Cancelado"
    case PendingKind => "Pendente"
  }

  /** Colour families of the badge class strings. */
  datatype Hue = Emerald | Green | Blue | Red | Amber | Yellow

  /** The order board's badge colour. */
  function BoardHue(status: string): (h: Hue)
    ensures status == COMPLETED ==> h == Emerald
    ensures status == IN_PROGRESS ==> h == Blue
    ensures status == CANCELLED ==> h == Red
    ensures status != COMPLETED && status != IN_PROGRESS && status != CANCELLED ==> h == Amber
  {
    match KindOf(status)
    case CompletedKind => Emerald
    case InProgressKind => Blue
    case CancelledKind => Red
    case PendingKind => Amber
  }

  /** The legacy order list's badge colour. */
  function LegacyHue(status: string): (h: Hue)
    ensures status == COMPLETED ==> h == Green
    ensures status == IN_PROGRESS ==> h == Blue
    ensures status == CANCELLED ==> h == Red
    ensures status != COMPLETED && status != IN_PROGRESS && status != CANCELLED ==> h == Yellow
  {
    match KindOf(status)
    case CompletedKind => Green
    case InProgressKind => Blue
    case CancelledKind => Red
    case PendingKind => Yellow
  }

  /** All tables draw the same distinctions: two tags get the same calendar
      colour exactly when they get the same label, the same board colour and
      the same legacy colour, namely when they are of the same kind. */
  lemma TablesAgree(a: string, b: string)
    ensures CalendarColor(a) == CalendarColor(b) <==> KindOf(a) == KindOf(b)
    ensures StatusText(a) == StatusText(b) <==> KindOf(a) == KindOf(b)
    ensures BoardHue(a) == BoardHue(b) <==> KindOf(a) == KindOf(b)
    ensures LegacyHue(a) == LegacyHue(b) <==> KindOf(a) == KindOf(b)
  {
    assert AMBER_HEX[1] != EMERALD_HEX[1] && AMBER_HEX[1] != BLUE_HEX[1] && AMBER_HEX[1] != RED_HEX[1];
    assert EMERALD_HEX[1] != BLUE_HEX[1] && EMERALD_HEX[1] != RED_HEX[1] && BLUE_HEX[1] != RED_HEX[1];
    assert "Concluído"[0] != "Em Andamento"[0] && "Concluído"[0] != "Pendente"[0];
    assert "Em Andamento"[0] != "Cancelado"[0] && "Em Andamento"[0] != "Pendente"[0];
    assert "Cancelado"[0] != "Pendente"[0] && "Concluído"[1] != "Cancelado"[1];
  }

  /** Only the default entry is shared by an unknown tag and "pending". */
  lemma UnknownLooksPending(status: string)
    requires status !in {PENDING, IN_PROGRESS, COMPLETED, CANCELLED}
    ensures CalendarColor(status) == CalendarColor(PENDING)
    ensures StatusText(status) == StatusText(PENDING)
    ensures BoardHue(status) == BoardHue(PENDING) && LegacyHue(status) == LegacyHue(PENDING)
  {
  }
}
