/** What the two calls write and answer, column by column, at the steps of any run: the rows and records
    behind an answer, the questions behind a row, and the work behind a retry's count. */
module EventAnswers {
  import opened Outcomes
  import opened EventTables
  import opened EventLane
  import opened EventInvariants
  import opened EventTarget
  import opened EventResults

  /** At step `k`, call `c` takes that act. */
  ghost predicate Took(worlds: seq<World>, labels: seq<Label>, k: nat, c: CallId, act: Act) {
    k < |labels| < |worlds| && labels[k] == Label(c, act)
  }

  lemma StepOf(worlds: seq<World>, labels: seq<Label>, k: nat)
    requires IsRun(worlds, labels) && k < |labels|
    ensures Sound(worlds[k]) && Enabled(worlds[k], labels[k]) && worlds[k + 1] == Apply(worlds[k], labels[k])
  {
    RunSound(worlds, labels, k);
    assert StepAt(worlds, labels, k);
  }

  // ---------------------------------------------------------------- receive_event, statement by statement

  /** Somebody's row holds the (connector, business key) of this delivery. */
  predicate SlotHeld(rows: Events, ev: Inbound) {
    exists id :: id in rows && rows[id].connectorId == ev.connectorId && rows[id].businessKey == ev.businessKey
  }

  /** What becomes of the event the target was asked about. */
  predicate OutcomeColumns(a: EventRow, b: EventRow, answer: Answer) {
    match answer
    case ToRef(ref) =>
      b == EventRow(a.connectorId, a.eventType, a.externalId, a.businessKey, Mapped,
                    Some(ref.refType), Some(ref.refId), None)
    case NoAction(reason) =>
      b == EventRow(a.connectorId, a.eventType, a.externalId, a.businessKey, Ignored, None, None, Some(reason))
    case Rejected(_, message) =>
      b == EventRow(a.connectorId, a.eventType, a.externalId, a.businessKey, Failed, None, None, Some(message))
  }

  /** What the relay is told of it. */
  predicate Tells(a: EventRow, answer: Answer, n: Notice) {
    match answer
    case ToRef(ref) => n == MappedNotice(a.eventType, a.externalId, ref)
    case NoAction(reason) => n == IgnoredNotice(a.externalId, reason)
    case Rejected(code, _) => n == FailedNotice(a.externalId, code)
  }

  /** All rows but one are as before. */
  predicate OnlyMoves(a: Events, b: Events, id: EventId) {
    id in a && id in b && b == a[id := b[id]]
  }

  /** The gate: four ways to be turned away, tried in this order, and one to get on. */
  lemma AdmitDecides(worlds: seq<World>, labels: seq<Label>, k: nat, c: CallId)
    requires IsRun(worlds, labels) && Took(worlds, labels, k, c, Admit)
    ensures c in worlds[k].calls && worlds[k].calls[c].Entered? && c in worlds[k + 1].calls
    ensures
      var (ev, next) := (worlds[k].calls[c].ev, worlds[k + 1].calls[c]);
      var here := worlds[k].connectors;
      var known := ev.connectorId in here && !here[ev.connectorId].deleted;
      && (next == ReceiveDone(ev, Err(Invalid)) <==> Blank(ev.externalId) || Blank(ev.businessKey))
      && (next == ReceiveDone(ev, Err(NotFound)) <==> !Blank(ev.externalId) && !Blank(ev.businessKey) && !known)
      && (next == ReceiveDone(ev, Err(InvalidState)) <==>
            && !Blank(ev.externalId) && !Blank(ev.businessKey)
            && known && here[ev.connectorId].status != "active")
      && (next.Admitted? <==>
            && !Blank(ev.externalId) && !Blank(ev.businessKey)
            && known && here[ev.connectorId].status == "active")
      && (next.Admitted? ==> next == Admitted(ev, here[ev.connectorId].kind))
  {
    StepOf(worlds, labels, k);
  }

  /** The claim inserts one received row for a free slot and a new id, and writes nothing otherwise. */
  lemma ClaimWrites(worlds: seq<World>, labels: seq<Label>, k: nat, c: CallId, newId: EventId)
    requires IsRun(worlds, labels) && Took(worlds, labels, k, c, Claim(newId))
    ensures c in worlds[k].calls && worlds[k].calls[c].Admitted? && c in worlds[k + 1].calls
    ensures
      var (w, v) := (worlds[k], worlds[k + 1]);
      var ev := w.calls[c].ev;
      && (SlotHeld(w.rows, ev) ==> v.calls[c] == Losing(ev))
      && (!SlotHeld(w.rows, ev) && newId in w.rows ==> v.calls[c] == ReceiveDone(ev, Err(Db)))
      && (SlotHeld(w.rows, ev) || newId in w.rows ==> v.rows == w.rows)
      && (!SlotHeld(w.rows, ev) && newId !in w.rows ==>
            && v.calls[c] == Owner(ev, w.calls[c].kind, newId)
            && v.rows == w.rows[newId := EventRow(ev.connectorId, ev.eventType, ev.externalId, ev.businessKey,
                                                  Received, None, None, None)])
  {
    StepOf(worlds, labels, k);
    var (rows, ev) := (worlds[k].rows, worlds[k].calls[c].ev);
    assert SlotHeld(rows, ev) <==> SlotTaken(rows, ev.connectorId, ev.businessKey) by {
      if SlotHeld(rows, ev) {
        var id :| id in rows && rows[id].connectorId == ev.connectorId && rows[id].businessKey == ev.businessKey;
        assert SameSlot(rows[id], ev.connectorId, ev.businessKey);
      }
    }
  }

  /** A receive commit writes what the target answered into the row it claimed, stages one record of it, and
      answers with that row's status and reference. */
  lemma SettleWrites(worlds: seq<World>, labels: seq<Label>, k: nat, c: CallId)
    requires IsRun(worlds, labels) && Took(worlds, labels, k, c, Settle)
    ensures c in worlds[k].calls && worlds[k].calls[c].Answered? && c in worlds[k + 1].calls
    ensures
      var (w, v) := (worlds[k], worlds[k + 1]);
      var (id, answer) := (w.calls[c].id, w.calls[c].answer);
      && OnlyMoves(w.rows, v.rows, id) && OutcomeColumns(w.rows[id], v.rows[id], answer)
      && w.rows[id].connectorId == w.calls[c].ev.connectorId && w.rows[id].businessKey == w.calls[c].ev.businessKey
      && |History(v.outbox, id)| == 1
      && (exists n :: Tells(w.rows[id], answer, n)
           && v.outbox == w.outbox + [OutboxRecord(id, w.rows[id].connectorId, n)])
      && v.calls[c] == ReceiveDone(w.calls[c].ev,
                                   Ok(ReceiveOutcome(id, v.rows[id].status, v.rows[id].refId, false)))
  {
    StepOf(worlds, labels, k);
    SettleMatches(worlds[k], c);
    var (w, v) := (worlds[k], worlds[k + 1]);
    var (call, id) := (w.calls[c], w.calls[c].id);
    assert RowAgrees(w.rows, w.outbox, id);
    HistoryOfStaged(w.outbox, v.outbox[|w.outbox|], id);
    var n := v.outbox[|w.outbox|].notice;
    assert Tells(w.rows[id], call.answer, n) && v.outbox == w.outbox + [OutboxRecord(id, w.rows[id].connectorId, n)];
  }

  /** The re-read answers with the row of the delivery's slot as it stands. */
  lemma RereadAnswers(worlds: seq<World>, labels: seq<Label>, k: nat, c: CallId, found: EventId)
    requires IsRun(worlds, labels) && Took(worlds, labels, k, c, Reread(found))
    ensures c in worlds[k].calls && worlds[k].calls[c].Losing? && found in worlds[k].rows
    ensures
      var (w, v, row) := (worlds[k], worlds[k + 1], worlds[k].rows[found]);
      var ev := w.calls[c].ev;
      && row.connectorId == ev.connectorId && row.businessKey == ev.businessKey
      && v.rows == w.rows && c in v.calls
      && v.calls[c] == ReceiveDone(ev, Ok(ReceiveOutcome(found, row.status, row.refId, true)))
  {
    StepOf(worlds, labels, k);
  }

  /** No re-read ever finds nothing. */
  lemma RereadNeverMisses(worlds: seq<World>, labels: seq<Label>, k: nat)
    requires IsRun(worlds, labels) && k < |labels|
    ensures labels[k].act != RereadMissing
  {
    assert StepAt(worlds, labels, k);
    if labels[k].act == RereadMissing { RereadFinds(worlds, labels, k, labels[k].caller); }
  }

  /** The row an Ok reports, as step `j` of its call left it: written by that step, or read by it. */
  predicate ReportsRow(w: World, v: World, l: Label, c: CallId, o: ReceiveOutcome) {
    && l.caller == c && (if o.duplicate then l.act == Reread(o.eventId) else l.act == Settle)
    && o.eventId in v.rows && o.status == v.rows[o.eventId].status && o.mappedRefId == v.rows[o.eventId].refId
    && (o.duplicate ==> v.rows == w.rows)
  }

  lemma AnswersByStep(worlds: seq<World>, labels: seq<Label>, j: nat, c: CallId)
    requires IsRun(worlds, labels) && j < |labels| && c in worlds[j + 1].calls
    requires worlds[j + 1].calls[c].ReceiveDone? && worlds[j + 1].calls[c].received.Ok?
    requires c in worlds[j].calls ==> worlds[j].calls[c] != worlds[j + 1].calls[c]
    ensures ReportsRow(worlds[j], worlds[j + 1], labels[j], c, worlds[j + 1].calls[c].received.value)
  {
    StepOf(worlds, labels, j);
    if labels[j].act.Settle? {
      SettleWrites(worlds, labels, j, c);
    } else {
      assert labels[j].act.Reread?;
      RereadAnswers(worlds, labels, j, c, labels[j].act.found);
    }
  }

  /** Every Ok of `receive_event` carries the status and the reference its event's row had at the step that
      ended the call: for the original the row it had just written, for a duplicate the row it had just read. */
  lemma {:induction false} AnswerIsTheRow(worlds: seq<World>, labels: seq<Label>, k: nat, c: CallId) returns (j: nat)
    requires IsRun(worlds, labels) && k <= |labels| && c in worlds[k].calls
    requires worlds[k].calls[c].ReceiveDone? && worlds[k].calls[c].received.Ok?
    ensures j < k && ReportsRow(worlds[j], worlds[j + 1], labels[j], c, worlds[k].calls[c].received.value)
  {
    assert k > 0;
    if c in worlds[k - 1].calls && worlds[k - 1].calls[c] == worlds[k].calls[c] {
      j := AnswerIsTheRow(worlds, labels, k - 1, c);
    } else {
      j := k - 1;
      AnswersByStep(worlds, labels, j, c);
    }
  }

  // ---------------------------------------------------------------- what the target is asked

  /** The first question about an event names the connector's kind and the delivery's own columns. */
  lemma AskTargetAsks(worlds: seq<World>, labels: seq<Label>, k: nat, c: CallId, answer: Answer)
    requires IsRun(worlds, labels) && Took(worlds, labels, k, c, AskTarget(answer))
    ensures c in worlds[k].calls && worlds[k].calls[c].Owner? && c in worlds[k + 1].calls
    ensures
      var (w, v) := (worlds[k], worlds[k + 1]);
      var (ev, kind, id) := (w.calls[c].ev, w.calls[c].kind, w.calls[c].id);
      && id in w.rows && v.rows == w.rows && v.calls[c] == Answered(ev, id, answer)
      && var row := w.rows[id];
         && row.connectorId == ev.connectorId && row.status == Received
         && v.asks == w.asks
           + [Ask(c, id, false, MapRequest(kind, row.eventType, row.externalId, row.businessKey), answer)]
  {
    StepOf(worlds, labels, k);
    assert CallHolds(worlds[k], c);
  }

  /** A failed event is put to the target again under its own key. */
  lemma RedriveAsks(worlds: seq<World>, labels: seq<Label>, k: nat, c: CallId, answer: Answer)
    requires IsRun(worlds, labels) && Took(worlds, labels, k, c, Redrive(answer))
    ensures c in worlds[k].calls && worlds[k].calls[c].Retrying? && c in worlds[k + 1].calls
    ensures worlds[k].calls[c].next < |worlds[k].calls[c].work|
    ensures
      var (w, v, call) := (worlds[k], worlds[k + 1], worlds[k].calls[c]);
      var id := call.work[call.next].id;
      && id in w.rows && v.rows == w.rows && v.outbox == w.outbox
      && v.calls[c] == RetryAnswered(call.connectorId, call.kind, call.work, call.next, call.mapped, answer)
      && var row := w.rows[id];
         && row.connectorId == call.connectorId && row.status != Received
         && v.asks == w.asks
           + [Ask(c, id, true, MapRequest(call.kind, row.eventType, row.externalId, row.businessKey), answer)]
  {
    StepOf(worlds, labels, k);
    var call := worlds[k].calls[c];
    assert CallHolds(worlds[k], c);
    assert WorkHolds(worlds[k].rows, call.connectorId, call.work[call.next]);
  }

  /** The connector was there, active, and of that kind, when step `j` let call `c` pass. */
  predicate PassedGate(w: World, l: Label, c: CallId, connectorId: ConnectorId, kind: string, first: bool) {
    && l == Label(c, if first then Admit else AdmitRetry)
    && connectorId in w.connectors && w.connectors[connectorId].kind == kind
    && (first ==> !w.connectors[connectorId].deleted && w.connectors[connectorId].status == "active")
  }

  predicate Inside(call: Call) {
    call.Admitted? || call.Owner? || call.RetryAdmitted? || call.Retrying? || call.RetryAnswered?
  }

  function ConnectorOf(call: Call): ConnectorId
    requires Inside(call)
  {
    if call.Admitted? || call.Owner? then call.ev.connectorId else call.connectorId
  }

  /** A call stays inside with the connector and the kind it was let in with. */
  lemma GateStep(w: World, l: Label)
    requires Enabled(w, l) && !l.act.EditConnector? && Inside(NextCall(w, l))
    ensures
      var call := NextCall(w, l);
      if l.act.Admit? || l.act.AdmitRetry?
      then PassedGate(w, l, l.caller, ConnectorOf(call), call.kind, call.Admitted?)
      else l.caller in w.calls && KeepsInside(w.calls[l.caller], call)
  {
  }

  predicate KeepsInside(a: Call, b: Call) {
    && Inside(a) && Inside(b) && ConnectorOf(a) == ConnectorOf(b) && a.kind == b.kind
    && (a.Admitted? || a.Owner? <==> b.Admitted? || b.Owner?)
  }

  /** Nobody gets to the target but through a gate: an active connector for a delivery, a known one for a retry. */
  lemma {:induction false} EveryAskerPassed(worlds: seq<World>, labels: seq<Label>, k: nat, c: CallId) returns (j: nat)
    requires IsRun(worlds, labels) && k <= |labels| && c in worlds[k].calls && Inside(worlds[k].calls[c])
    ensures
      var call := worlds[k].calls[c];
      j < k && PassedGate(worlds[j], labels[j], c, ConnectorOf(call), call.kind, call.Admitted? || call.Owner?)
  {
    assert k > 0;
    assert StepAt(worlds, labels, k - 1);
    if c in worlds[k - 1].calls && worlds[k - 1].calls[c] == worlds[k].calls[c] {
      j := EveryAskerPassed(worlds, labels, k - 1, c);
    } else {
      GateStep(worlds[k - 1], labels[k - 1]);
      if labels[k - 1].act.Admit? || labels[k - 1].act.AdmitRetry? {
        j := k - 1;
      } else {
        j := EveryAskerPassed(worlds, labels, k - 1, c);
      }
    }
  }

  /** Step `j` put that question: with the event's own columns, for a connector that step `g` let the call pass
      for; first about an event still received, again only about one that has failed before. */
  ghost predicate LawfulAsk(worlds: seq<World>, labels: seq<Label>, g: nat, j: nat, x: Ask) {
    && g < j < |labels| < |worlds|
    && labels[j] == Label(x.caller, if x.redrive then Redrive(x.answer) else AskTarget(x.answer))
    && x.eventId in worlds[j].rows
    && var (row, kind) := (worlds[j].rows[x.eventId], x.request.connectorKind);
       && PassedGate(worlds[g], labels[g], x.caller, row.connectorId, kind, !x.redrive)
       && x.request == MapRequest(kind, row.eventType, row.externalId, row.businessKey)
       && (x.redrive <==> row.status != Received)
  }

  lemma AskedByStep(worlds: seq<World>, labels: seq<Label>, j: nat) returns (g: nat)
    requires IsRun(worlds, labels) && j < |labels| && (labels[j].act.AskTarget? || labels[j].act.Redrive?)
    ensures |worlds[j + 1].asks| == |worlds[j].asks| + 1 && worlds[j + 1].asks[..|worlds[j].asks|] == worlds[j].asks
    ensures LawfulAsk(worlds, labels, g, j, worlds[j + 1].asks[|worlds[j].asks|])
  {
    assert StepAt(worlds, labels, j);
    g := EveryAskerPassed(worlds, labels, j, labels[j].caller);
    if labels[j].act.AskTarget? {
      AskTargetAsks(worlds, labels, j, labels[j].caller, labels[j].act.answer);
    } else {
      RedriveAsks(worlds, labels, j, labels[j].caller, labels[j].act.answer);
    }
  }

  /** Whatever the target is asked, in any run. */
  lemma {:induction false} EveryAskIsLawful(worlds: seq<World>, labels: seq<Label>, k: nat, i: nat)
    returns (g: nat, j: nat)
    requires IsRun(worlds, labels) && k <= |labels| && i < |worlds[k].asks|
    ensures j < k && LawfulAsk(worlds, labels, g, j, worlds[k].asks[i])
  {
    assert k > 0;
    assert StepAt(worlds, labels, k - 1);
    if labels[k - 1].act.AskTarget? || labels[k - 1].act.Redrive? {
      g := AskedByStep(worlds, labels, k - 1);
      j := k - 1;
      if i < |worlds[j].asks| {
        assert worlds[k].asks[i] == worlds[j].asks[i];
        g, j := EveryAskIsLawful(worlds, labels, k - 1, i);
      }
    } else {
      QuietStep(worlds[k - 1], labels[k - 1]);
      g, j := EveryAskIsLawful(worlds, labels, k - 1, i);
    }
  }

  // ---------------------------------------------------------------- retry_failed, statement by statement

  /** A retry is turned away only for a connector that is not there; one that is disabled is retried all the same. */
  lemma AdmitRetryDecides(worlds: seq<World>, labels: seq<Label>, k: nat, c: CallId)
    requires IsRun(worlds, labels) && Took(worlds, labels, k, c, AdmitRetry)
    ensures c in worlds[k].calls && worlds[k].calls[c].RetryEntered? && c in worlds[k + 1].calls
    ensures
      var (conn, here) := (worlds[k].calls[c].connectorId, worlds[k].connectors);
      worlds[k + 1].calls[c] == if conn in here then RetryAdmitted(conn, here[conn].kind)
                                else RetryDone(conn, Err(NotFound))
  {
    StepOf(worlds, labels, k);
  }

  lemma RetriedRow(rows: Events, id: EventId, answer: Answer)
    requires id in rows && Shaped(rows[id])
    ensures var after := RetryMarked(rows, id, answer);
      if rows[id].status == Failed then OnlyMoves(rows, after, id) && OutcomeColumns(rows[id], after[id], answer)
      else after == rows
  {
  }

  lemma RetriedItem(worlds: seq<World>, labels: seq<Label>, k: nat, c: CallId)
    requires IsRun(worlds, labels) && k <= |labels| && c in worlds[k].calls && worlds[k].calls[c].RetryAnswered?
    ensures
      var (w, call) := (worlds[k], worlds[k].calls[c]);
      && call.next < |call.work| && WorkHolds(w.rows, call.connectorId, call.work[call.next])
      && Shaped(w.rows[call.work[call.next].id])
  {
    RunSound(worlds, labels, k);
    var (w, call) := (worlds[k], worlds[k].calls[c]);
    assert CallHolds(w, c);
    assert RowAgrees(w.rows, w.outbox, call.work[call.next].id);
  }

  /** A retry commit: an event still failed takes the target's answer, any other row is left; a record is
      staged, and the event counted, exactly when a failed event has been mapped. */
  lemma SettleRetryWrites(worlds: seq<World>, labels: seq<Label>, k: nat, c: CallId)
    requires IsRun(worlds, labels) && Took(worlds, labels, k, c, SettleRetry)
    ensures c in worlds[k].calls && worlds[k].calls[c].RetryAnswered? && c in worlds[k + 1].calls
    ensures worlds[k].calls[c].next < |worlds[k].calls[c].work|
    ensures
      var (w, v, call) := (worlds[k], worlds[k + 1], worlds[k].calls[c]);
      var id := call.work[call.next].id;
      && id in w.rows && w.rows[id].connectorId == call.connectorId
      && (w.rows[id].status != Failed ==> v.rows == w.rows)
      && (w.rows[id].status == Failed ==>
            OnlyMoves(w.rows, v.rows, id) && OutcomeColumns(w.rows[id], v.rows[id], call.answer))
      && var wins := w.rows[id].status == Failed && call.answer.ToRef?;
         && v.calls[c] == Retrying(call.connectorId, call.kind, call.work, call.next + 1,
                                   if wins then call.mapped + 1 else call.mapped)
         && v.outbox == if wins
                        then w.outbox + [OutboxRecord(id, w.rows[id].connectorId,
                                                      MappedNotice(w.rows[id].eventType, w.rows[id].externalId,
                                                                   call.answer.ref))]
                        else w.outbox
  {
    assert StepAt(worlds, labels, k);
    RetriedItem(worlds, labels, k, c);
    var call := worlds[k].calls[c];
    RetriedRow(worlds[k].rows, call.work[call.next].id, call.answer);
  }

  /** Step `q` committed item `i` of this run's work list. */
  ghost predicate Redriven(worlds: seq<World>, labels: seq<Label>, q: nat, c: CallId, work: seq<FailedEvent>, i: nat) {
    && Took(worlds, labels, q, c, SettleRetry)
    && c in worlds[q].calls && worlds[q].calls[c].RetryAnswered?
    && worlds[q].calls[c].work == work && worlds[q].calls[c].next == i
  }

  /** Step `j` fetched the failed events of that connector, all of them and no others. */
  ghost predicate Fetched(worlds: seq<World>, labels: seq<Label>, j: nat, c: CallId, connectorId: ConnectorId,
                          work: seq<FailedEvent>) {
    && Took(worlds, labels, j, c, FetchFailed(work))
    && (forall i | 0 <= i < |work| :: work[i].id in worlds[j].rows)
    && (forall id | id in worlds[j].rows ::
          (exists i :: 0 <= i < |work| && work[i].id == id)
            <==> worlds[j].rows[id].connectorId == connectorId && worlds[j].rows[id].status == Failed)
    && (forall i, n | 0 <= i < n < |work| :: work[i].id != work[n].id)
  }

  ghost predicate ItemDone(worlds: seq<World>, labels: seq<Label>, j: nat, k: nat, c: CallId, work: seq<FailedEvent>,
                           i: nat) {
    exists q :: j < q < k && Redriven(worlds, labels, q, c, work, i)
  }

  ghost predicate WorkedSoFar(worlds: seq<World>, labels: seq<Label>, k: nat, j: nat, c: CallId, conn: ConnectorId,
                              work: seq<FailedEvent>, next: nat) {
    && j < k && Fetched(worlds, labels, j, c, conn, work)
    && forall i | 0 <= i < next :: ItemDone(worlds, labels, j, k, c, work, i)
  }

  /** Where a retry run in the middle of its list was one step before. */
  lemma RetryStep(w: World, l: Label)
    requires Enabled(w, l) && !l.act.EditConnector? && (NextCall(w, l).Retrying? || NextCall(w, l).RetryAnswered?)
    ensures
      var next := NextCall(w, l);
      && l.caller in w.calls
      && var call := w.calls[l.caller];
         if l.act.FetchFailed? then call.RetryAdmitted? && next.next == 0 && next.work == l.act.work
                                    && next.connectorId == call.connectorId
         else
           && (call.Retrying? || call.RetryAnswered?)
           && call.connectorId == next.connectorId && call.work == next.work
           && (next.next == call.next || (next.next == call.next + 1 && l.act.SettleRetry? && call.RetryAnswered?))
  {
  }

  lemma DoneStillDone(worlds: seq<World>, labels: seq<Label>, j: nat, k: nat, m: nat, c: CallId,
                      work: seq<FailedEvent>, next: nat)
    requires k <= m && forall i | 0 <= i < next :: ItemDone(worlds, labels, j, k, c, work, i)
    ensures forall i | 0 <= i < next :: ItemDone(worlds, labels, j, m, c, work, i)
  {
    forall i | 0 <= i < next ensures ItemDone(worlds, labels, j, m, c, work, i) {
      assert ItemDone(worlds, labels, j, k, c, work, i);
    }
  }

  /** A retry run in the middle of its list has committed every item before. */
  lemma {:induction false} RedrivenSoFar(worlds: seq<World>, labels: seq<Label>, k: nat, c: CallId) returns (j: nat)
    requires IsRun(worlds, labels) && k <= |labels| && c in worlds[k].calls
    requires worlds[k].calls[c].Retrying? || worlds[k].calls[c].RetryAnswered?
    ensures var call := worlds[k].calls[c]; WorkedSoFar(worlds, labels, k, j, c, call.connectorId, call.work, call.next)
  {
    assert k > 0;
    assert StepAt(worlds, labels, k - 1);
    var call := worlds[k].calls[c];
    if c in worlds[k - 1].calls && worlds[k - 1].calls[c] == call {
      j := RedrivenSoFar(worlds, labels, k - 1, c);
      DoneStillDone(worlds, labels, j, k - 1, k, c, call.work, call.next);
    } else {
      RetryStep(worlds[k - 1], labels[k - 1]);
      if labels[k - 1].act.FetchFailed? {
        j := k - 1;
        FetchedAll(worlds, labels, j, c, call.work);
      } else {
        j := RedrivenSoFar(worlds, labels, k - 1, c);
        var was := worlds[k - 1].calls[c].next;
        DoneStillDone(worlds, labels, j, k - 1, k, c, call.work, was);
        if call.next > was {
          assert Redriven(worlds, labels, k - 1, c, call.work, was);
          assert ItemDone(worlds, labels, j, k, c, call.work, was);
        }
      }
    }
  }

  lemma FetchedAll(worlds: seq<World>, labels: seq<Label>, j: nat, c: CallId, work: seq<FailedEvent>)
    requires IsRun(worlds, labels) && Took(worlds, labels, j, c, FetchFailed(work))
    ensures c in worlds[j].calls && worlds[j].calls[c].RetryAdmitted?
    ensures Fetched(worlds, labels, j, c, worlds[j].calls[c].connectorId, work)
  {
    StepOf(worlds, labels, j);
    var rows := worlds[j].rows;
    forall i | 0 <= i < |work| ensures Matches(rows, work[i].id, Failed) {}
  }

  /** A retry run that answers Ok has worked through the whole report it fetched: it has committed an answer
      of the target's for each event of the connector that had failed by then. */
  lemma {:induction false} EveryFailedIsRedriven(worlds: seq<World>, labels: seq<Label>, k: nat, c: CallId)
    returns (j: nat, work: seq<FailedEvent>)
    requires IsRun(worlds, labels) && k <= |labels| && c in worlds[k].calls
    requires worlds[k].calls[c].RetryDone? && worlds[k].calls[c].retried.Ok?
    ensures WorkedSoFar(worlds, labels, k, j, c, worlds[k].calls[c].connectorId, work, |work|)
  {
    assert k > 0;
    assert StepAt(worlds, labels, k - 1);
    if c in worlds[k - 1].calls && worlds[k - 1].calls[c] == worlds[k].calls[c] {
      j, work := EveryFailedIsRedriven(worlds, labels, k - 1, c);
    } else {
      assert labels[k - 1] == Label(c, Finish);
      j := RedrivenSoFar(worlds, labels, k - 1, c);
      work := worlds[k - 1].calls[c].work;
    }
    DoneStillDone(worlds, labels, j, k - 1, k, c, work, |work|);
  }

  // ---------------------------------------------------------------- where a committed answer came from

  predicate Answers(call: Call) {
    call.Answered? || call.RetryAnswered?
  }

  /** Step `p` put the question this call now has the answer of. */
  ghost predicate AskedAt(worlds: seq<World>, labels: seq<Label>, p: nat, c: CallId, call: Call)
    requires Answers(call)
  {
    && p < |labels| < |worlds| && c in worlds[p].calls
    && if call.Answered?
       then && labels[p] == Label(c, AskTarget(call.answer))
            && worlds[p].calls[c].Owner? && worlds[p].calls[c].id == call.id
       else && labels[p] == Label(c, Redrive(call.answer))
            && worlds[p].calls[c].Retrying? && worlds[p].calls[c].work == call.work
            && worlds[p].calls[c].next == call.next
  }

  /** What a call commits is what the target answered this call, about this event. */
  lemma {:induction false} AnswerWasGiven(worlds: seq<World>, labels: seq<Label>, k: nat, c: CallId) returns (p: nat)
    requires IsRun(worlds, labels) && k <= |labels| && c in worlds[k].calls && Answers(worlds[k].calls[c])
    ensures p < k && AskedAt(worlds, labels, p, c, worlds[k].calls[c])
  {
    assert k > 0;
    assert StepAt(worlds, labels, k - 1);
    if c in worlds[k - 1].calls && worlds[k - 1].calls[c] == worlds[k].calls[c] {
      p := AnswerWasGiven(worlds, labels, k - 1, c);
    } else {
      p := k - 1;
    }
  }
}
