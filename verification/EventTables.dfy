/** The integration_events and outbox tables, and the statements the event repository runs on them.

    Each function is one SQL statement: a table in, the table after it. The guards in the `WHERE`
    clauses are the only protection these statements carry; whether a guard can fail at all is a
    question about the whole protocol (`EventInvariants`). */
module EventTables {
  import opened Outcomes

  type EventId = nat
  type ConnectorId = nat
  type RefId = nat

  datatype EventStatus = Received | Mapped | Ignored | Failed

  datatype MappedRef = MappedRef(refType: string, refId: RefId)

  /** What the target module answers: a record, no action needed, or a rejection. */
  datatype Answer = ToRef(ref: MappedRef) | NoAction(reason: string) | Rejected(code: string, message: string)

  /** One row of integration_events. The nullable columns are options. */
  datatype EventRow = EventRow(
    connectorId: ConnectorId,
    eventType: string,
    externalId: string,
    businessKey: string,
    status: EventStatus,
    refType: Option<string>,
    refId: Option<RefId>,
    errorDetail: Option<string>)

  type Events = map<EventId, EventRow>

  /** The three lifecycle events, as staged for the relay. */
  datatype Notice =
    | MappedNotice(eventType: string, externalId: string, ref: MappedRef)
    | IgnoredNotice(externalId: string, reason: string)
    | FailedNotice(externalId: string, code: string)

  datatype OutboxRecord = OutboxRecord(eventId: EventId, connectorId: ConnectorId, notice: Notice)

  /** The columns a dedup claim writes. */
  datatype NewEvent = NewEvent(connectorId: ConnectorId, eventType: string, externalId: string, businessKey: string)

  datatype Claimed = Won | Conflict | DuplicateId

  /** The unique index on (connector_id, business_key). */
  predicate SameSlot(row: EventRow, connectorId: ConnectorId, businessKey: string) {
    row.connectorId == connectorId && row.businessKey == businessKey
  }

  predicate SlotTaken(rows: Events, connectorId: ConnectorId, businessKey: string) {
    exists id | id in rows :: SameSlot(rows[id], connectorId, businessKey)
  }

  function ReceivedRow(e: NewEvent): EventRow {
    EventRow(e.connectorId, e.eventType, e.externalId, e.businessKey, Received, None, None, None)
  }

  /** INSERT … ON CONFLICT (connector_id, business_key) DO NOTHING. A clash on the primary key is an error. */
  function ClaimEvent(rows: Events, id: EventId, e: NewEvent): (Claimed, Events) {
    if SlotTaken(rows, e.connectorId, e.businessKey) then (Conflict, rows)
    else if id in rows then (DuplicateId, rows)
    else (Won, rows[id := ReceivedRow(e)])
  }

  /** The rows an UPDATE … WHERE id = $1 AND status = s touches: one or none. */
  predicate Matches(rows: Events, id: EventId, s: EventStatus) {
    id in rows && rows[id].status == s
  }

  function MarkMapped(rows: Events, id: EventId, ref: MappedRef): Events {
    if Matches(rows, id, Received)
    then rows[id := rows[id].(status := Mapped, refType := Some(ref.refType), refId := Some(ref.refId))] else rows
  }

  function MarkIgnored(rows: Events, id: EventId, reason: string): Events {
    if Matches(rows, id, Received) then rows[id := rows[id].(status := Ignored, errorDetail := Some(reason))] else rows
  }

  function MarkFailed(rows: Events, id: EventId, detail: string): Events {
    if Matches(rows, id, Received) then rows[id := rows[id].(status := Failed, errorDetail := Some(detail))] else rows
  }

  function RetryMarkMapped(rows: Events, id: EventId, ref: MappedRef): Events {
    if Matches(rows, id, Failed)
    then rows[id := rows[id].(status := Mapped, refType := Some(ref.refType), refId := Some(ref.refId),
                              errorDetail := None)]
    else rows
  }

  function RetryMarkIgnored(rows: Events, id: EventId, reason: string): Events {
    if Matches(rows, id, Failed) then rows[id := rows[id].(status := Ignored, errorDetail := Some(reason))] else rows
  }

  function SetErrorDetail(rows: Events, id: EventId, detail: string): Events {
    if Matches(rows, id, Failed) then rows[id := rows[id].(errorDetail := Some(detail))] else rows
  }

  /** One line of the failure report, the retry loop's work list. */
  datatype FailedEvent = FailedEvent(id: EventId, eventType: string, externalId: string, businessKey: string)

  /** SELECT … WHERE connector_id = $1 AND status = 'failed': exactly those rows, each once, in some order. */
  ghost predicate IsFailedReport(rows: Events, connectorId: ConnectorId, work: seq<FailedEvent>) {
    && (forall k | 0 <= k < |work| ::
          && Matches(rows, work[k].id, Failed)
          && rows[work[k].id].connectorId == connectorId
          && work[k] == FailedEvent(work[k].id, rows[work[k].id].eventType, rows[work[k].id].externalId,
                                    rows[work[k].id].businessKey))
    && (forall j, k | 0 <= j < k < |work| :: work[j].id != work[k].id)
    && (forall id | id in rows && rows[id].status == Failed && rows[id].connectorId == connectorId ::
          exists k :: 0 <= k < |work| && work[k].id == id)
  }

  /** What an event has had staged, oldest first. */
  function History(outbox: seq<OutboxRecord>, id: EventId): seq<Notice> {
    if outbox == [] then []
    else
      var last := outbox[|outbox| - 1];
      History(outbox[..|outbox| - 1], id) + (if last.eventId == id then [last.notice] else [])
  }

  lemma HistoryOfStaged(outbox: seq<OutboxRecord>, r: OutboxRecord, id: EventId)
    ensures History(outbox + [r], id) == History(outbox, id) + (if r.eventId == id then [r.notice] else [])
  {
    assert (outbox + [r])[..|outbox|] == outbox;
  }

  /** Staging one record extends one history and no other. */
  lemma HistoriesAfter(outbox: seq<OutboxRecord>, r: OutboxRecord)
    ensures forall id :: History(outbox + [r], id) == History(outbox, id) + (if r.eventId == id then [r.notice] else [])
  {
    forall id ensures History(outbox + [r], id) == History(outbox, id) + (if r.eventId == id then [r.notice] else []) {
      HistoryOfStaged(outbox, r, id);
    }
  }
}
