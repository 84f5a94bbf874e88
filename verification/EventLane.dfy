/** The inbound event lane as a step relation: any number of overlapping `receive_event` and
    `retry_failed` calls over one database and one target module.

    A step is what is atomic in the source: one statement outside a transaction, one committed
    transaction (the guarded UPDATE together with the outbox row), one call to the target, or the
    end of a call. `Fail` may end an unfinished call between any two of them, standing for an error
    return, a rolled-back transaction or a crash. */
module EventLane {
  import opened Outcomes
  import opened EventTables

  type CallId = nat

  datatype LaneError = Db | NotFound | InvalidState | Invalid

  datatype Connector = Connector(kind: string, status: string, deleted: bool)

  datatype Inbound = Inbound(connectorId: ConnectorId, eventType: string, externalId: string, businessKey: string)

  datatype ReceiveOutcome = ReceiveOutcome(eventId: EventId, status: EventStatus, mappedRefId: Option<RefId>,
                                           duplicate: bool)

  datatype MapRequest = MapRequest(connectorKind: string, eventType: string, externalId: string, idempotencyKey: string)

  /** Where a call stands: its program counter with the locals still needed. */
  datatype Call =
    | Entered(ev: Inbound)
    | Admitted(ev: Inbound, kind: string)
    | Losing(ev: Inbound)
    | Owner(ev: Inbound, kind: string, id: EventId)
    | Answered(ev: Inbound, id: EventId, answer: Answer)
    | ReceiveDone(ev: Inbound, received: Result<ReceiveOutcome, LaneError>)
    | RetryEntered(connectorId: ConnectorId)
    | RetryAdmitted(connectorId: ConnectorId, kind: string)
    | Retrying(connectorId: ConnectorId, kind: string, work: seq<FailedEvent>, next: nat, mapped: nat)
    | RetryAnswered(connectorId: ConnectorId, kind: string, work: seq<FailedEvent>, next: nat, mapped: nat,
                    answer: Answer)
    | RetryDone(connectorId: ConnectorId, retried: Result<nat, LaneError>)

  /** One question put to the target, with its answer. */
  datatype Ask = Ask(caller: CallId, eventId: EventId, redrive: bool, request: MapRequest, answer: Answer)

  /** A `failed → mapped` transition, as observed on the table. */
  datatype Recovery = Recovery(caller: CallId, eventId: EventId)

  /** The committed tables and the running calls. `claims`, `asks` and `recoveries` are history:
      no step reads them. */
  datatype World = World(
    connectors: map<ConnectorId, Connector>,
    rows: Events,
    outbox: seq<OutboxRecord>,
    calls: map<CallId, Call>,
    claims: map<CallId, EventId>,
    asks: seq<Ask>,
    recoveries: seq<Recovery>)

  datatype Act =
    | Enter(ev: Inbound)
    | Admit
    | Claim(newId: EventId)
    | Reread(found: EventId)
    | RereadMissing
    | AskTarget(answer: Answer)
    | Settle
    | EnterRetry(connectorId: ConnectorId)
    | AdmitRetry
    | FetchFailed(work: seq<FailedEvent>)
    | Redrive(answer: Answer)
    | SettleRetry
    | Finish
    | Fail
    | EditConnector(edited: ConnectorId, connector: Connector)

  datatype Label = Label(caller: CallId, act: Act)

  predicate Unfinished(call: Call) {
    !call.ReceiveDone? && !call.RetryDone?
  }

  ghost predicate Enabled(w: World, l: Label) {
    var c := l.caller;
    match l.act
    case Enter(_) => c !in w.calls
    case EnterRetry(_) => c !in w.calls
    case EditConnector(_, _) => true
    case Admit => c in w.calls && w.calls[c].Entered?
    case Claim(_) => c in w.calls && w.calls[c].Admitted?
    case Reread(found) => c in w.calls && w.calls[c].Losing? && found in w.rows &&
      SameSlot(w.rows[found], w.calls[c].ev.connectorId, w.calls[c].ev.businessKey)
    case RereadMissing => c in w.calls && w.calls[c].Losing? &&
      !SlotTaken(w.rows, w.calls[c].ev.connectorId, w.calls[c].ev.businessKey)
    case AskTarget(_) => c in w.calls && w.calls[c].Owner?
    case Settle => c in w.calls && w.calls[c].Answered?
    case AdmitRetry => c in w.calls && w.calls[c].RetryEntered?
    case FetchFailed(work) => c in w.calls && w.calls[c].RetryAdmitted? &&
      IsFailedReport(w.rows, w.calls[c].connectorId, work)
    case Redrive(_) => c in w.calls && w.calls[c].Retrying? && w.calls[c].next < |w.calls[c].work|
    case SettleRetry => c in w.calls && w.calls[c].RetryAnswered? && w.calls[c].next < |w.calls[c].work|
    case Finish => c in w.calls && w.calls[c].Retrying? && w.calls[c].next == |w.calls[c].work|
    case Fail => c in w.calls && Unfinished(w.calls[c])
  }

  /** The gate of `receive_event`: both keys present, connector known and active. */
  function Admission(connectors: map<ConnectorId, Connector>, ev: Inbound): Result<string, LaneError> {
    if Blank(ev.externalId) || Blank(ev.businessKey) then Err(Invalid)
    else if ev.connectorId !in connectors || connectors[ev.connectorId].deleted then Err(NotFound)
    else if connectors[ev.connectorId].status != "active" then Err(InvalidState)
    else Ok(connectors[ev.connectorId].kind)
  }

  function AfterAdmission(connectors: map<ConnectorId, Connector>, ev: Inbound): Call {
    match Admission(connectors, ev)
    case Ok(kind) => Admitted(ev, kind)
    case Err(e) => ReceiveDone(ev, Err(e))
  }

  function NewEventOf(ev: Inbound): NewEvent {
    NewEvent(ev.connectorId, ev.eventType, ev.externalId, ev.businessKey)
  }

  function Duplicate(rows: Events, id: EventId): ReceiveOutcome
    requires id in rows
  {
    ReceiveOutcome(id, rows[id].status, rows[id].refId, true)
  }

  function ReceiveRequest(ev: Inbound, kind: string): MapRequest {
    MapRequest(kind, ev.eventType, ev.externalId, ev.businessKey)
  }

  function RetryRequest(f: FailedEvent, kind: string): MapRequest {
    MapRequest(kind, f.eventType, f.externalId, f.businessKey)
  }

  /** The notice `receive_event` stages, and the outcome it returns, for an answer. */
  function NoticeOf(eventType: string, externalId: string, answer: Answer): Notice {
    match answer
    case ToRef(ref) => MappedNotice(eventType, externalId, ref)
    case NoAction(reason) => IgnoredNotice(externalId, reason)
    case Rejected(code, _) => FailedNotice(externalId, code)
  }

  function OutcomeOf(id: EventId, answer: Answer): ReceiveOutcome {
    match answer
    case ToRef(ref) => ReceiveOutcome(id, Mapped, Some(ref.refId), false)
    case NoAction(_) => ReceiveOutcome(id, Ignored, None, false)
    case Rejected(_, _) => ReceiveOutcome(id, Failed, None, false)
  }

  function Marked(rows: Events, id: EventId, answer: Answer): Events {
    match answer
    case ToRef(ref) => MarkMapped(rows, id, ref)
    case NoAction(reason) => MarkIgnored(rows, id, reason)
    case Rejected(_, message) => MarkFailed(rows, id, message)
  }

  function RetryMarked(rows: Events, id: EventId, answer: Answer): Events {
    match answer
    case ToRef(ref) => RetryMarkMapped(rows, id, ref)
    case NoAction(reason) => RetryMarkIgnored(rows, id, reason)
    case Rejected(_, message) => SetErrorDetail(rows, id, message)
  }

  predicate Recovered(before: Events, after: Events, id: EventId) {
    Matches(before, id, Failed) && Matches(after, id, Mapped)
  }

  function Failure(call: Call): Call {
    match call
    case Entered(ev) => ReceiveDone(ev, Err(Db))
    case Admitted(ev, _) => ReceiveDone(ev, Err(Db))
    case Losing(ev) => ReceiveDone(ev, Err(Db))
    case Owner(ev, _, _) => ReceiveDone(ev, Err(Db))
    case Answered(ev, _, _) => ReceiveDone(ev, Err(Db))
    case ReceiveDone(_, _) => call
    case RetryDone(_, _) => call
    case _ => RetryDone(call.connectorId, Err(Db))
  }

  /** A retried mapping wins when its UPDATE matches the row; only then is it staged and counted. */
  predicate RetryWins(rows: Events, call: Call)
    requires call.RetryAnswered? && call.next < |call.work|
  {
    call.answer.ToRef? && Matches(rows, call.work[call.next].id, Failed)
  }

  /** Where a step leaves its own call. */
  ghost function NextCall(w: World, l: Label): Call
    requires Enabled(w, l) && !l.act.EditConnector?
  {
    var c := l.caller;
    match l.act
    case Enter(ev) => Entered(ev)
    case EnterRetry(connectorId) => RetryEntered(connectorId)
    case Admit => AfterAdmission(w.connectors, w.calls[c].ev)
    case Claim(newId) =>
      var ev := w.calls[c].ev;
      (match ClaimEvent(w.rows, newId, NewEventOf(ev)).0
       case Won => Owner(ev, w.calls[c].kind, newId)
       case Conflict => Losing(ev)
       case DuplicateId => ReceiveDone(ev, Err(Db)))
    case Reread(found) => ReceiveDone(w.calls[c].ev, Ok(Duplicate(w.rows, found)))
    case RereadMissing => ReceiveDone(w.calls[c].ev, Err(Db))
    case AskTarget(answer) => Answered(w.calls[c].ev, w.calls[c].id, answer)
    case Settle => ReceiveDone(w.calls[c].ev, Ok(OutcomeOf(w.calls[c].id, w.calls[c].answer)))
    case AdmitRetry =>
      var connectorId := w.calls[c].connectorId;
      if connectorId in w.connectors then RetryAdmitted(connectorId, w.connectors[connectorId].kind)
      else RetryDone(connectorId, Err(NotFound))
    case FetchFailed(work) => Retrying(w.calls[c].connectorId, w.calls[c].kind, work, 0, 0)
    case Redrive(answer) =>
      var call := w.calls[c];
      RetryAnswered(call.connectorId, call.kind, call.work, call.next, call.mapped, answer)
    case SettleRetry =>
      var call := w.calls[c];
      Retrying(call.connectorId, call.kind, call.work, call.next + 1,
               if RetryWins(w.rows, call) then call.mapped + 1 else call.mapped)
    case Finish => RetryDone(w.calls[c].connectorId, Ok(w.calls[c].mapped))
    case Fail => Failure(w.calls[c])
  }

  /** What a step does beside that: the committed tables, and the history. */
  ghost function Effect(w: World, l: Label): World
    requires Enabled(w, l)
  {
    var c := l.caller;
    match l.act
    case Claim(newId) =>
      var (claimed, rows) := ClaimEvent(w.rows, newId, NewEventOf(w.calls[c].ev));
      w.(rows := rows, claims := if claimed == Won then w.claims[c := newId] else w.claims)
    case AskTarget(answer) =>
      var call := w.calls[c];
      w.(asks := w.asks + [Ask(c, call.id, false, ReceiveRequest(call.ev, call.kind), answer)])
    case Settle =>
      // Mark and stage in one transaction, whatever the UPDATE matched.
      var call := w.calls[c];
      w.(rows := Marked(w.rows, call.id, call.answer),
         outbox := w.outbox + [OutboxRecord(call.id, call.ev.connectorId,
                                            NoticeOf(call.ev.eventType, call.ev.externalId, call.answer))])
    case Redrive(answer) =>
      var f := w.calls[c].work[w.calls[c].next];
      w.(asks := w.asks + [Ask(c, f.id, true, RetryRequest(f, w.calls[c].kind), answer)])
    case SettleRetry =>
      var call := w.calls[c];
      var f := call.work[call.next];
      var rows := RetryMarked(w.rows, f.id, call.answer);
      w.(rows := rows,
         outbox := if RetryWins(w.rows, call)
                   then w.outbox + [OutboxRecord(f.id, call.connectorId,
                                                 MappedNotice(f.eventType, f.externalId, call.answer.ref))]
                   else w.outbox,
         recoveries := if Recovered(w.rows, rows, f.id) then w.recoveries + [Recovery(c, f.id)] else w.recoveries)
    case EditConnector(id, connector) => w.(connectors := w.connectors[id := connector])
    case _ => w
  }

  ghost function Apply(w: World, l: Label): World
    requires Enabled(w, l)
  {
    if l.act.EditConnector? then Effect(w, l) else Effect(w, l).(calls := w.calls[l.caller := NextCall(w, l)])
  }

  /** Nothing received yet; connectors may already be registered. */
  ghost predicate Initial(w: World) {
    w.rows == map[] && w.outbox == [] && w.calls == map[] && w.claims == map[] && w.asks == [] && w.recoveries == []
  }

  ghost predicate StepAt(worlds: seq<World>, labels: seq<Label>, i: nat)
    requires i < |labels| < |worlds|
  {
    Enabled(worlds[i], labels[i]) && worlds[i + 1] == Apply(worlds[i], labels[i])
  }

  /** A run: the worlds passed through and the step taken between each two. */
  ghost predicate IsRun(worlds: seq<World>, labels: seq<Label>) {
    && |worlds| == |labels| + 1
    && Initial(worlds[0])
    && forall i | 0 <= i < |labels| :: StepAt(worlds, labels, i)
  }

  lemma RunExtends(worlds: seq<World>, labels: seq<Label>, l: Label)
    requires IsRun(worlds, labels) && Enabled(worlds[|labels|], l)
    ensures IsRun(worlds + [Apply(worlds[|labels|], l)], labels + [l])
  {
    var ws, ls := worlds + [Apply(worlds[|labels|], l)], labels + [l];
    forall i | 0 <= i < |ls| ensures StepAt(ws, ls, i) {
      if i < |labels| { assert StepAt(worlds, labels, i); }
    }
  }
}
