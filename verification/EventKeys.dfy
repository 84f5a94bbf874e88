/** The idempotency key against the dedup slot: the slot is per connector, the key is not. */
module EventKeys {
  import opened Outcomes
  import opened EventTables
  import opened EventLane
  import opened EventInvariants
  import opened EventTarget
  import opened EventResults
  import opened EventStranding

  // ---------------------------------------------------------------- the exact condition

  /** The dedup slot is per connector but the forwarded key is not: with a consistent target, events
      of different connectors that share a business key are mapped to one record. */
  lemma KeysCrossConnectors(worlds: seq<World>, labels: seq<Label>, k: nat, i: EventId, j: EventId)
    requires IsRun(worlds, labels) && k < |worlds| && Consistent(worlds[k].asks)
    requires i in worlds[k].rows && j in worlds[k].rows
    requires worlds[k].rows[i].businessKey == worlds[k].rows[j].businessKey
    requires worlds[k].rows[i].status == Mapped && worlds[k].rows[j].status == Mapped
    ensures Shaped(worlds[k].rows[i]) && Shaped(worlds[k].rows[j])
    ensures RefOf(worlds[k].rows[i]) == RefOf(worlds[k].rows[j])
  {
    MappedRowsHoldTheEffect(worlds, labels, k, i);
    MappedRowsHoldTheEffect(worlds, labels, k, j);
    assert RefOf(worlds[k].rows[j]) in {RefOf(worlds[k].rows[i])};
  }

  /** A target that never gives one reference under two keys. */
  ghost predicate Separating(asks: seq<Ask>) {
    forall i, j | 0 <= i < |asks| && 0 <= j < |asks| && asks[i].answer.ToRef? && asks[i].answer == asks[j].answer ::
      asks[i].request.idempotencyKey == asks[j].request.idempotencyKey
  }

  lemma GivenUnderItsKey(asks: seq<Ask>, key: string, ref: MappedRef) returns (i: nat)
    requires ref in Effects(asks, key)
    ensures i < |asks| && asks[i].answer == ToRef(ref) && asks[i].request.idempotencyKey == key
  {
    var a :| a in asks && a.answer.ToRef? && a.request.idempotencyKey == key && a.answer.ref == ref;
    i :| 0 <= i < |asks| && asks[i] == a;
  }

  /** With a target that answers a repeated key alike and separates keys, two mapped events share a record
      if and only if they share a business key, whichever connectors they came through. */
  lemma OneRecordPerKey(worlds: seq<World>, labels: seq<Label>, k: nat, i: EventId, j: EventId)
    requires IsRun(worlds, labels) && k < |worlds| && Consistent(worlds[k].asks) && Separating(worlds[k].asks)
    requires i in worlds[k].rows && j in worlds[k].rows
    requires worlds[k].rows[i].status == Mapped && worlds[k].rows[j].status == Mapped
    ensures Shaped(worlds[k].rows[i]) && Shaped(worlds[k].rows[j])
    ensures
      var (a, b) := (worlds[k].rows[i], worlds[k].rows[j]);
      RefOf(a) == RefOf(b) <==> a.businessKey == b.businessKey
  {
    var (w, a, b) := (worlds[k], worlds[k].rows[i], worlds[k].rows[j]);
    MappedRowsHoldTheEffect(worlds, labels, k, i);
    MappedRowsHoldTheEffect(worlds, labels, k, j);
    var p := GivenUnderItsKey(w.asks, a.businessKey, RefOf(a));
    var q := GivenUnderItsKey(w.asks, b.businessKey, RefOf(b));
    if a.businessKey == b.businessKey { KeysCrossConnectors(worlds, labels, k, i, j); }
  }

  // ---------------------------------------------------------------- two connectors, one record

  /** The row of event `ev` once mapped to `ref`. */
  function MappedRow(ev: Inbound, ref: MappedRef): EventRow {
    EventRow(ev.connectorId, ev.eventType, ev.externalId, ev.businessKey, Mapped, Some(ref.refType), Some(ref.refId),
             None)
  }

  function AskOf(c: CallId, ev: Inbound, kind: string, id: EventId, ref: MappedRef): Ask {
    Ask(c, id, false, ReceiveRequest(ev, kind), ToRef(ref))
  }

  lemma Claims(worlds: seq<World>, labels: seq<Label>, c: CallId, ev: Inbound, id: EventId)
    returns (ws: seq<World>, ls: seq<Label>)
    requires IsRun(worlds, labels) && c !in worlds[|labels|].calls && Admission(worlds[|labels|].connectors, ev).Ok?
    requires id !in worlds[|labels|].rows && !SlotTaken(worlds[|labels|].rows, ev.connectorId, ev.businessKey)
    ensures Extends(worlds, labels, ws, ls)
    ensures
      var (w, v) := (worlds[|labels|], ws[|ls|]);
      && v.connectors == w.connectors && v.rows == w.rows[id := ReceivedRow(NewEventOf(ev))] && v.asks == w.asks
      && v.calls == w.calls[c := Owner(ev, Admission(w.connectors, ev).value, id)]
  {
    ws, ls := Admits(worlds, labels, c, ev);
    ws, ls := Extend(ws, ls, Label(c, Claim(id)));
  }

  /** A delivery, from its entry to its commit, of an event the target maps to `ref`. */
  lemma Delivers(worlds: seq<World>, labels: seq<Label>, c: CallId, ev: Inbound, id: EventId, ref: MappedRef)
    returns (ws: seq<World>, ls: seq<Label>)
    requires IsRun(worlds, labels) && c !in worlds[|labels|].calls && Admission(worlds[|labels|].connectors, ev).Ok?
    requires id !in worlds[|labels|].rows && !SlotTaken(worlds[|labels|].rows, ev.connectorId, ev.businessKey)
    ensures Extends(worlds, labels, ws, ls)
    ensures
      var (w, v) := (worlds[|labels|], ws[|ls|]);
      && v.connectors == w.connectors && v.rows == w.rows[id := MappedRow(ev, ref)]
      && v.asks == w.asks + [AskOf(c, ev, Admission(w.connectors, ev).value, id, ref)]
      && v.calls.Keys == w.calls.Keys + {c}
  {
    var w := worlds[|labels|];
    ws, ls := Claims(worlds, labels, c, ev, id);
    ws, ls := Extend(ws, ls, Label(c, AskTarget(ToRef(ref))));
    ws, ls := Extend(ws, ls, Label(c, Settle));
    assert w.rows[id := ReceivedRow(NewEventOf(ev))][id := MappedRow(ev, ref)] == w.rows[id := MappedRow(ev, ref)];
  }

  /** Distinct slots do not mean distinct records: any two admissible events of different connectors with
      one business key can be mapped to one reference by a target that keeps its word. */
  lemma TwoSlotsOneRecord(connectors: map<ConnectorId, Connector>, a: Inbound, b: Inbound, ref: MappedRef)
    returns (ws: seq<World>, ls: seq<Label>)
    requires Admission(connectors, a).Ok? && Admission(connectors, b).Ok?
    requires a.connectorId != b.connectorId && a.businessKey == b.businessKey
    ensures IsRun(ws, ls) && ws[0].connectors == connectors
    ensures
      var w := ws[|ls|];
      && Consistent(w.asks) && Separating(w.asks)
      && w.rows == map[1 := MappedRow(a, ref), 2 := MappedRow(b, ref)]
      && !SameSlot(w.rows[1], w.rows[2].connectorId, w.rows[2].businessKey)
  {
    ws, ls := [World(connectors, map[], [], map[], map[], [], [])], [];
    ws, ls := Delivers(ws, ls, 1, a, 1, ref);
    ws, ls := Delivers(ws, ls, 2, b, 2, ref);
  }
}
