/** The order state machine and its audit trail (harness/state.py). */
module Orders {
  import opened Wrappers

  // Identifiers are text in the source; only equality and sort order are used.
  type OrderId = nat

  datatype OrderState =
    | Received | InvoicePending | AwaitingPayment | Confirmed | Processing
    | Completed | Rejected | Expired | Cancelled

  /** The literal transition table. */
  function Successors(s: OrderState): set<OrderState> {
    match s
    case Received => {Rejected, InvoicePending, Cancelled}
    case InvoicePending => {AwaitingPayment, Rejected, Cancelled}
    case AwaitingPayment => {Confirmed, Expired, Cancelled}
    case Confirmed => {Processing, Cancelled}
    case Processing => {Completed, Cancelled}
    case Expired => {Confirmed}
    case Cancelled => {Confirmed}
    case Completed => {}
    case Rejected => {}
  }

  predicate Legal(from: OrderState, to: OrderState) {
    to in Successors(from)
  }

  predicate ReasonRequired(from: OrderState, to: OrderState) {
    (from == Confirmed && to == Cancelled) || (from in {Expired, Cancelled} && to == Confirmed)
  }

  /** One append-only `order_events` row; `from` is None on the intake row. */
  datatype OrderEvent = OrderEvent(order: OrderId, from: Option<OrderState>, to: OrderState, reason: string)

  datatype TransitionError = IllegalTransition | TransitionConflict

  /**
   * The checks of `transition_order`: the expected state is read from the row
   * when the caller names none, legality and the reason come next, and the
   * compare-and-swap against the row comes last.
   */
  function Admit(current: Option<OrderState>, expected: Option<OrderState>, to: OrderState, reason: string)
    : Result<OrderState, TransitionError>
  {
    if expected.None? && current.None? then Err(TransitionConflict)
    else
      var from := if expected.Some? then expected.value else current.value;
      if !Legal(from, to) then Err(IllegalTransition)
      else if ReasonRequired(from, to) && reason == "" then Err(IllegalTransition)
      else if current != Some(from) then Err(TransitionConflict)
      else Ok(from)
  }

  /** The audit rows of one order, oldest first. */
  function Trail(events: seq<OrderEvent>, o: OrderId): seq<OrderEvent> {
    if events == [] then []
    else
      var rest := Trail(events[..|events| - 1], o);
      if events[|events| - 1].order == o then rest + [events[|events| - 1]] else rest
  }

  /** The rows open with the intake row, chain legally, and end at `last`. */
  predicate LegalPath(rows: seq<OrderEvent>, last: OrderState) {
    && rows != []
    && rows[0].from == None
    && rows[0].to == Received
    && (forall i :: 0 < i < |rows| ==>
          rows[i].from == Some(rows[i - 1].to) && Legal(rows[i - 1].to, rows[i].to)
          && (ReasonRequired(rows[i - 1].to, rows[i].to) ==> rows[i].reason != ""))
    && rows[|rows| - 1].to == last
  }

  lemma TrailAppend(events: seq<OrderEvent>, e: OrderEvent)
    ensures forall o {:trigger Trail(events + [e], o)} ::
              Trail(events + [e], o) == Trail(events, o) + (if e.order == o then [e] else [])
  {
  }

  /** A transition that `Admit` lets through extends a legal path legally. */
  lemma AdmittedExtendsPath(
    rows: seq<OrderEvent>, o: OrderId, current: OrderState, expected: Option<OrderState>, to: OrderState, reason: string)
    requires LegalPath(rows, current)
    requires Admit(Some(current), expected, to, reason).Ok?
    ensures LegalPath(rows + [OrderEvent(o, Some(current), to, reason)], to)
  {
  }
}
