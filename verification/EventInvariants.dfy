/** What every step of the event lane keeps, whatever interleaves and wherever calls stop. */
module EventInvariants {
  import opened Outcomes
  import opened EventTables
  import opened EventLane

  // ---------------------------------------------------------------- the invariant

  /** The unique index. */
  ghost predicate SlotsUnique(rows: Events) {
    forall i, j | i in rows && j in rows && SameSlot(rows[i], rows[j].connectorId, rows[j].businessKey) :: i == j
  }

  predicate Shaped(row: EventRow) {
    match row.status
    case Received => row.refType == None && row.refId == None && row.errorDetail == None
    case Mapped => row.refType.Some? && row.refId.Some? && row.errorDetail == None
    case _ => row.refType == None && row.refId == None && row.errorDetail.Some?
  }

  /** The reference a mapped row stores. */
  function RefOf(row: EventRow): MappedRef
    requires Shaped(row) && row.status == Mapped
  {
    MappedRef(row.refType.value, row.refId.value)
  }

  predicate FailureNotice(row: EventRow, n: Notice) {
    n.FailedNotice? && n.externalId == row.externalId
  }

  /** The five outbox histories, and the row each goes with. */
  predicate Agrees(row: EventRow, h: seq<Notice>)
    requires Shaped(row)
  {
    match row.status
    case Received => h == []
    case Mapped => || h == [MappedNotice(row.eventType, row.externalId, RefOf(row))]
                   || (&& |h| == 2 && FailureNotice(row, h[0])
                       && h[1] == MappedNotice(row.eventType, row.externalId, RefOf(row)))
    case Ignored => || h == [IgnoredNotice(row.externalId, row.errorDetail.value)]
                    || (|h| == 1 && FailureNotice(row, h[0]))
    case Failed => |h| == 1 && FailureNotice(row, h[0])
  }

  predicate RowAgrees(rows: Events, outbox: seq<OutboxRecord>, id: EventId) {
    if id in rows then Shaped(rows[id]) && Agrees(rows[id], History(outbox, id)) else History(outbox, id) == []
  }

  ghost predicate TablesAgree(rows: Events, outbox: seq<OutboxRecord>) {
    forall id :: RowAgrees(rows, outbox, id)
  }

  /** `row` is the row the receive call `ev` inserted. */
  predicate RowOf(row: EventRow, ev: Inbound) {
    SameSlot(row, ev.connectorId, ev.businessKey) && row.eventType == ev.eventType && row.externalId == ev.externalId
  }

  ghost predicate Held(w: World, c: CallId, ev: Inbound, id: EventId) {
    c in w.claims && w.claims[c] == id && id in w.rows && w.rows[id].status == Received && RowOf(w.rows[id], ev)
  }

  ghost predicate OutcomeHolds(w: World, c: CallId, ev: Inbound, o: ReceiveOutcome) {
    && o.eventId in w.rows
    && SameSlot(w.rows[o.eventId], ev.connectorId, ev.businessKey)
    && (o.duplicate <==> c !in w.claims)
    && (!o.duplicate ==> w.claims[c] == o.eventId && w.rows[o.eventId].status != Received)
    && (o.status == Mapped ==> w.rows[o.eventId].status == Mapped && o.mappedRefId == w.rows[o.eventId].refId)
    && (o.status == Ignored ==> w.rows[o.eventId].status == Ignored)
  }

  /** A work item names a row that has failed once; every column but its status and outcome is still that row's. */
  predicate WorkHolds(rows: Events, connectorId: ConnectorId, f: FailedEvent) {
    && f.id in rows && rows[f.id].status != Received && rows[f.id].connectorId == connectorId
    && f == FailedEvent(f.id, rows[f.id].eventType, rows[f.id].externalId, rows[f.id].businessKey)
  }

  ghost predicate AllWorkHolds(rows: Events, connectorId: ConnectorId, work: seq<FailedEvent>) {
    forall k | 0 <= k < |work| :: WorkHolds(rows, connectorId, work[k])
  }

  ghost predicate CallHolds(w: World, c: CallId)
    requires c in w.calls
  {
    match w.calls[c]
    case Entered(_) => c !in w.claims
    case Admitted(_, _) => c !in w.claims
    case Losing(ev) => c !in w.claims && SlotTaken(w.rows, ev.connectorId, ev.businessKey)
    case Owner(ev, _, id) => Held(w, c, ev, id)
    case Answered(ev, id, _) => Held(w, c, ev, id)
    case ReceiveDone(ev, Ok(o)) => OutcomeHolds(w, c, ev, o)
    case ReceiveDone(_, Err(_)) => true
    case RetryEntered(_) => c !in w.claims
    case RetryAdmitted(_, _) => c !in w.claims
    case Retrying(conn, _, work, next, _) => c !in w.claims && next <= |work| && AllWorkHolds(w.rows, conn, work)
    case RetryAnswered(conn, _, work, next, _, _) => c !in w.claims && next < |work| && AllWorkHolds(w.rows, conn, work)
    case RetryDone(_, _) => c !in w.claims
  }

  ghost predicate ClaimsHold(w: World) {
    && (forall c | c in w.claims :: c in w.calls && w.claims[c] in w.rows)
    && (forall c, d | c in w.claims && d in w.claims && w.claims[c] == w.claims[d] :: c == d)
  }

  ghost predicate Inv(w: World) {
    && SlotsUnique(w.rows)
    && TablesAgree(w.rows, w.outbox)
    && ClaimsHold(w)
    && forall c | c in w.calls :: CallHolds(w, c)
  }

  // ---------------------------------------------------------------- what a step does to rows

  /** How one row may change: its identity never, its status along the lifecycle, final rows not at all. */
  predicate RowEvolves(a: EventRow, b: EventRow) {
    && b.connectorId == a.connectorId && b.businessKey == a.businessKey
    && b.eventType == a.eventType && b.externalId == a.externalId
    && match a.status
       case Received => b == a || b.status != Received
       case Failed => b.status == Failed || b.status == Mapped || b.status == Ignored
       case _ => b == a
  }

  ghost predicate RowsEvolve(a: Events, b: Events) {
    forall id | id in a :: id in b && RowEvolves(a[id], b[id])
  }

  lemma CallHoldsAcross(w: World, v: World, c: CallId)
    requires c in w.calls && CallHolds(w, c)
    requires c in v.calls && v.calls[c] == w.calls[c]
    requires RowsEvolve(w.rows, v.rows)
    requires c in v.claims <==> c in w.claims
    requires c in w.claims ==> v.claims[c] == w.claims[c]
    requires forall id | Matches(w.rows, id, Received) && c in w.claims && w.claims[c] == id :: v.rows[id] == w.rows[id]
    ensures CallHolds(v, c)
  {
    match w.calls[c] {
      case Losing(ev) =>
        var id :| id in w.rows && SameSlot(w.rows[id], ev.connectorId, ev.businessKey);
        assert SameSlot(v.rows[id], ev.connectorId, ev.businessKey);
      case Retrying(conn, _, work, _, _) =>
        forall k | 0 <= k < |work| ensures WorkHolds(v.rows, conn, work[k]) {
          assert WorkHolds(w.rows, conn, work[k]);
        }
      case RetryAnswered(conn, _, work, _, _, _) =>
        forall k | 0 <= k < |work| ensures WorkHolds(v.rows, conn, work[k]) {
          assert WorkHolds(w.rows, conn, work[k]);
        }
      case _ =>
    }
  }

  // ---------------------------------------------------------------- preservation

  ghost predicate CallsHold(w: World) {
    forall c | c in w.calls :: CallHolds(w, c)
  }

  /** Rows that another call's claim pins stay as they are. */
  ghost predicate PinsKept(w: World, v: World, c: CallId) {
    forall d | d != c && d in w.claims && Matches(w.rows, w.claims[d], Received) ::
      w.claims[d] in v.rows && v.rows[w.claims[d]] == w.rows[w.claims[d]]
  }

  /** A step of `c` leaves every other call's facts true. */
  lemma OtherCallsHold(w: World, v: World, c: CallId)
    requires CallsHold(w) && RowsEvolve(w.rows, v.rows) && PinsKept(w, v, c)
    requires c in v.calls && v.calls == w.calls[c := v.calls[c]] && CallHolds(v, c)
    requires forall d | d != c :: (d in v.claims <==> d in w.claims) && (d in w.claims ==> v.claims[d] == w.claims[d])
    ensures CallsHold(v)
  {
    forall d | d in v.calls ensures CallHolds(v, d) {
      if d != c { CallHoldsAcross(w, v, d); }
    }
  }

  /** Steps that touch one call and no table. */
  lemma OneCallMoves(w: World, v: World, c: CallId)
    requires Inv(w)
    requires v.rows == w.rows && v.outbox == w.outbox && v.claims == w.claims
    requires c in v.calls && v.calls == w.calls[c := v.calls[c]] && CallHolds(v, c)
    ensures Inv(v)
  {
    OtherCallsHold(w, v, c);
  }

  lemma ClaimedTables(w: World, v: World, ev: Inbound, newId: EventId)
    requires SlotsUnique(w.rows) && TablesAgree(w.rows, w.outbox) && newId !in w.rows
    requires !SlotTaken(w.rows, ev.connectorId, ev.businessKey)
    requires v.rows == w.rows[newId := ReceivedRow(NewEventOf(ev))] && v.outbox == w.outbox
    ensures SlotsUnique(v.rows) && TablesAgree(v.rows, v.outbox) && RowsEvolve(w.rows, v.rows)
    ensures forall id | id in w.rows :: v.rows[id] == w.rows[id]
  {
    forall j ensures RowAgrees(v.rows, v.outbox, j) { assert RowAgrees(w.rows, w.outbox, j); }
  }

  lemma ClaimWon(w: World, v: World, c: CallId, ev: Inbound, kind: string, newId: EventId)
    requires Inv(w) && c in w.calls && c !in w.claims
    requires newId !in w.rows && !SlotTaken(w.rows, ev.connectorId, ev.businessKey)
    requires v == w.(rows := w.rows[newId := ReceivedRow(NewEventOf(ev))],
                     calls := w.calls[c := Owner(ev, kind, newId)], claims := w.claims[c := newId])
    ensures Inv(v) && RowsEvolve(w.rows, v.rows)
  {
    ClaimedTables(w, v, ev, newId);
    assert ClaimsHold(v);
    OtherCallsHold(w, v, c);
  }

  lemma ClaimKeeps(w: World, c: CallId, newId: EventId)
    requires Inv(w) && Enabled(w, Label(c, Claim(newId)))
    ensures var v := Apply(w, Label(c, Claim(newId))); Inv(v) && RowsEvolve(w.rows, v.rows)
  {
    var ev := w.calls[c].ev;
    var v := Apply(w, Label(c, Claim(newId)));
    assert CallHolds(w, c);
    match ClaimEvent(w.rows, newId, NewEventOf(ev)).0 {
      case Won => ClaimWon(w, v, c, ev, w.calls[c].kind, newId);
      case _ => OneCallMoves(w, v, c);
    }
  }

  /** The UPDATE of a receive commit always matches: only the claimer moves a received row. */
  lemma SettleMatches(w: World, c: CallId)
    requires Inv(w) && c in w.calls && w.calls[c].Answered?
    ensures Held(w, c, w.calls[c].ev, w.calls[c].id)
    ensures History(w.outbox, w.calls[c].id) == []
  {
    assert CallHolds(w, c);
    assert RowAgrees(w.rows, w.outbox, w.calls[c].id);
  }

  /** Staging one record for a row that moves: the other rows and histories are as before. */
  lemma TablesAgreeAfter(rows: Events, outbox: seq<OutboxRecord>, after: Events, id: EventId, r: OutboxRecord)
    requires TablesAgree(rows, outbox) && id in rows && r.eventId == id
    requires id in after && after == rows[id := after[id]]
    requires Shaped(after[id]) && Agrees(after[id], History(outbox, id) + [r.notice])
    ensures TablesAgree(after, outbox + [r])
  {
    forall j ensures RowAgrees(after, outbox + [r], j) {
      assert RowAgrees(rows, outbox, j);
      HistoryOfStaged(outbox, r, j);
    }
  }

  lemma SettledRow(rows: Events, id: EventId, ev: Inbound, answer: Answer)
    requires Matches(rows, id, Received) && Shaped(rows[id]) && RowOf(rows[id], ev)
    ensures var after := Marked(rows, id, answer);
      && id in after && after == rows[id := after[id]]
      && RowEvolves(rows[id], after[id]) && Shaped(after[id]) && after[id].status != Received
      && Agrees(after[id], [NoticeOf(ev.eventType, ev.externalId, answer)])
  {
  }

  lemma SettledTables(rows: Events, outbox: seq<OutboxRecord>, id: EventId, ev: Inbound, answer: Answer)
    requires SlotsUnique(rows) && TablesAgree(rows, outbox) && Matches(rows, id, Received) && RowOf(rows[id], ev)
    ensures var after := Marked(rows, id, answer);
      && SlotsUnique(after) && RowsEvolve(rows, after) && after.Keys == rows.Keys
      && TablesAgree(after, outbox + [OutboxRecord(id, ev.connectorId, NoticeOf(ev.eventType, ev.externalId, answer))])
      && forall j | j in rows && j != id :: after[j] == rows[j]
  {
    assert RowAgrees(rows, outbox, id);
    SettledRow(rows, id, ev, answer);
    var r := OutboxRecord(id, ev.connectorId, NoticeOf(ev.eventType, ev.externalId, answer));
    assert History(outbox, id) + [r.notice] == [r.notice];
    TablesAgreeAfter(rows, outbox, Marked(rows, id, answer), id, r);
  }

  lemma SettleKeeps(w: World, c: CallId)
    requires Inv(w) && c in w.calls && w.calls[c].Answered?
    ensures var v := Apply(w, Label(c, Settle)); Inv(v) && RowsEvolve(w.rows, v.rows)
  {
    var v := Apply(w, Label(c, Settle));
    SettleMatches(w, c);
    SettledTables(w.rows, w.outbox, w.calls[c].id, w.calls[c].ev, w.calls[c].answer);
    SettledOutcome(w, v, c);
    OtherCallsHold(w, v, c);
  }

  lemma SettledOutcome(w: World, v: World, c: CallId)
    requires c in w.calls && w.calls[c].Answered?
    requires Held(w, c, w.calls[c].ev, w.calls[c].id)
    requires v == Apply(w, Label(c, Settle))
    ensures CallHolds(v, c)
  {
  }

  lemma RedrivenRow(rows: Events, outboxed: seq<Notice>, id: EventId, answer: Answer)
    requires Matches(rows, id, Failed) && Shaped(rows[id]) && Agrees(rows[id], outboxed)
    ensures var after := RetryMarked(rows, id, answer);
      && id in after && after == rows[id := after[id]]
      && RowEvolves(rows[id], after[id]) && Shaped(after[id]) && after[id].status != Received
      && (!answer.ToRef? ==> Agrees(after[id], outboxed))
      && (answer.ToRef? ==> Agrees(after[id],
                                   outboxed + [MappedNotice(rows[id].eventType, rows[id].externalId, answer.ref)]))
  {
  }

  lemma WorkSurvives(before: Events, after: Events, conn: ConnectorId, work: seq<FailedEvent>)
    requires AllWorkHolds(before, conn, work) && RowsEvolve(before, after)
    ensures AllWorkHolds(after, conn, work)
  {
    forall k | 0 <= k < |work| ensures WorkHolds(after, conn, work[k]) {
      assert WorkHolds(before, conn, work[k]);
    }
  }

  lemma SameOutbox(rows: Events, outbox: seq<OutboxRecord>, after: Events, id: EventId)
    requires TablesAgree(rows, outbox) && id in rows && id in after && after == rows[id := after[id]]
    requires RowAgrees(after, outbox, id)
    ensures TablesAgree(after, outbox)
  {
    forall j ensures RowAgrees(after, outbox, j) { assert RowAgrees(rows, outbox, j); }
  }

  lemma RedrivenTables(rows: Events, outbox: seq<OutboxRecord>, conn: ConnectorId, f: FailedEvent, answer: Answer)
    requires SlotsUnique(rows) && TablesAgree(rows, outbox) && WorkHolds(rows, conn, f)
    ensures var after := RetryMarked(rows, f.id, answer);
      && SlotsUnique(after) && RowsEvolve(rows, after)
      && (forall id | Matches(rows, id, Received) :: id in after && after[id] == rows[id])
      && TablesAgree(after,
           if answer.ToRef? && Matches(rows, f.id, Failed)
           then outbox + [OutboxRecord(f.id, conn, MappedNotice(f.eventType, f.externalId, answer.ref))]
           else outbox)
  {
    if Matches(rows, f.id, Failed) {
      assert RowAgrees(rows, outbox, f.id);
      RedrivenRow(rows, History(outbox, f.id), f.id, answer);
      if answer.ToRef? {
        TablesAgreeAfter(rows, outbox, RetryMarked(rows, f.id, answer), f.id,
                         OutboxRecord(f.id, conn, MappedNotice(f.eventType, f.externalId, answer.ref)));
      } else {
        SameOutbox(rows, outbox, RetryMarked(rows, f.id, answer), f.id);
      }
    }
  }

  lemma SettleRetryKeeps(w: World, c: CallId)
    requires Inv(w) && c in w.calls && w.calls[c].RetryAnswered? && w.calls[c].next < |w.calls[c].work|
    ensures var v := Apply(w, Label(c, SettleRetry)); Inv(v) && RowsEvolve(w.rows, v.rows)
  {
    var v := Apply(w, Label(c, SettleRetry));
    var call := w.calls[c];
    assert CallHolds(w, c);
    RedrivenTables(w.rows, w.outbox, call.connectorId, call.work[call.next], call.answer);
    WorkSurvives(w.rows, v.rows, w.calls[c].connectorId, w.calls[c].work);
    OtherCallsHold(w, v, c);
  }

  lemma FetchKeeps(w: World, c: CallId, work: seq<FailedEvent>)
    requires Inv(w) && Enabled(w, Label(c, FetchFailed(work)))
    ensures Inv(Apply(w, Label(c, FetchFailed(work))))
  {
    var v := Apply(w, Label(c, FetchFailed(work)));
    assert CallHolds(w, c);
    forall k | 0 <= k < |work| ensures WorkHolds(v.rows, w.calls[c].connectorId, work[k]) {
      assert Matches(w.rows, work[k].id, Failed);
    }
    OneCallMoves(w, v, c);
  }

  lemma EditKeeps(w: World, v: World)
    requires Inv(w) && v == w.(connectors := v.connectors)
    ensures Inv(v)
  {
    forall d | d in w.calls ensures CallHolds(v, d) { CallHoldsAcross(w, v, d); }
  }

  lemma FailKeeps(w: World, c: CallId)
    requires Inv(w) && c in w.calls && Unfinished(w.calls[c])
    ensures Inv(w.(calls := w.calls[c := Failure(w.calls[c])]))
  {
    assert CallHolds(w, c);
    OneCallMoves(w, w.(calls := w.calls[c := Failure(w.calls[c])]), c);
  }

  predicate Reads(act: Act) {
    act.Admit? || act.Reread? || act.RereadMissing? || act.AskTarget? || act.AdmitRetry? || act.Redrive? || act.Finish?
  }

  /** Steps that only read the tables, or ask the target, move one call. */
  lemma ReadKeeps(w: World, l: Label)
    requires Inv(w) && Enabled(w, l) && Reads(l.act)
    ensures Inv(Apply(w, l)) && Apply(w, l).rows == w.rows
  {
    var c := l.caller;
    var v := Apply(w, l);
    assert CallHolds(w, c);
    assert v.rows == w.rows && v.outbox == w.outbox && v.claims == w.claims && v.calls == w.calls[c := v.calls[c]];
    ReadMoves(w, v, l);
    OneCallMoves(w, v, c);
  }

  lemma ReadMoves(w: World, v: World, l: Label)
    requires Enabled(w, l) && Reads(l.act) && CallHolds(w, l.caller) && v == Apply(w, l)
    ensures CallHolds(v, l.caller)
  {
  }

  lemma EnterKeeps(w: World, c: CallId, call: Call)
    requires Inv(w) && c !in w.calls && (call.Entered? || call.RetryEntered?)
    ensures Inv(w.(calls := w.calls[c := call]))
  {
    OneCallMoves(w, w.(calls := w.calls[c := call]), c);
  }

  /** The step theorem: each step keeps the invariant and moves rows along the lifecycle only. */
  lemma StepKeeps(w: World, l: Label)
    requires Inv(w) && Enabled(w, l)
    ensures Inv(Apply(w, l)) && RowsEvolve(w.rows, Apply(w, l).rows)
  {
    match l.act {
      case Claim(newId) => ClaimKeeps(w, l.caller, newId);
      case Settle => SettleKeeps(w, l.caller);
      case SettleRetry =>
        assert CallHolds(w, l.caller);
        SettleRetryKeeps(w, l.caller);
      case EditConnector(_, _) => EditKeeps(w, Apply(w, l));
      case FetchFailed(work) => FetchKeeps(w, l.caller, work);
      case Enter(ev) => EnterKeeps(w, l.caller, Entered(ev));
      case EnterRetry(conn) => EnterKeeps(w, l.caller, RetryEntered(conn));
      case Fail => FailKeeps(w, l.caller);
      case _ => ReadKeeps(w, l);
    }
  }
}
