/** `IntegrationsWriteService`: the two calls as the source writes them, one statement after another
    over tables other callers change in between. Each body is shown to be a path of the step relation,
    so every guarantee of `EventResults` holds of these bodies, under any interference. */
module EventService {
  import opened Outcomes
  import opened EventTables
  import opened EventLane
  import opened EventInvariants
  import opened EventCounts
  import opened EventResults
  import opened EventAnswers

  class IntegrationsWriteService {
    var connectors: map<ConnectorId, Connector>
    var rows: Events
    var outbox: seq<OutboxRecord>

    // The run so far: every world the tables passed through, and the step between each two.
    ghost var worlds: seq<World>
    ghost var labels: seq<Label>

    // The target's own record of what it was asked, and the calls the database has left without an answer.
    ghost var asked: seq<Ask>
    ghost var outages: set<CallId>

    ghost predicate Valid()
      reads this
    {
      && IsRun(worlds, labels)
      && Now().connectors == connectors && Now().rows == rows && Now().outbox == outbox
      && Now().asks == asked && outages <= Now().calls.Keys
    }

    ghost function Now(): World
      reads this
      requires worlds != []
    {
      worlds[|worlds| - 1]
    }

    constructor (connectors: map<ConnectorId, Connector>)
      ensures Valid() && this.connectors == connectors && rows == map[] && outbox == []
      ensures Now().calls == map[]
    {
      this.connectors := connectors;
      rows := map[];
      outbox := [];
      worlds := [World(connectors, map[], [], map[], map[], [], [])];
      labels := [];
      asked, outages := [], {};
    }

    /** A scheduling point: other calls may take any number of steps. The caller may rely on this
        contract only; that nobody happens to run is one way to meet it. */
    method Others(ghost me: CallId)
      requires Valid() && me in Now().calls
      modifies this
      ensures Valid() && me in Now().calls && Now().calls[me] == old(Now().calls[me])
      ensures |old(worlds)| <= |worlds| && worlds[..|old(worlds)|] == old(worlds)
      ensures labels[..|old(labels)|] == old(labels)
      ensures forall i | |old(labels)| <= i < |labels| :: labels[i].caller != me
      ensures me in outages <==> me in old(outages)
    {
    }

    /** Whether the database answers this time. */
    method Reachable(ghost me: CallId) returns (up: bool)
      modifies this`outages
      ensures outages == if up then old(outages) else old(outages) + {me}
    {
      up := *;
      outages := if up then outages else outages + {me};
    }

    /** What call `me` has to ask next: about the event it owns, or the failed event it has come to. */
    ghost predicate Asks(me: CallId, id: EventId, redrive: bool, request: MapRequest)
      reads this
      requires worlds != []
    {
      && me in Now().calls
      && var call := Now().calls[me];
         if redrive then
           && call.Retrying? && call.next < |call.work| && id == call.work[call.next].id
           && var f := call.work[call.next];
              request == MapRequest(call.kind, f.eventType, f.externalId, f.businessKey)
         else
           && call.Owner? && id == call.id
           && request == MapRequest(call.kind, call.ev.eventType, call.ev.externalId, call.ev.businessKey)
    }

    /** The target module: any answer. It keeps what it was asked, and what it said. */
    method Map(request: MapRequest, ghost id: EventId, ghost redrive: bool, ghost me: CallId) returns (answer: Answer)
      requires Valid() && Asks(me, id, redrive, request)
      modifies this`asked
      ensures asked == old(asked) + [Ask(me, id, redrive, request, answer)]
    {
      answer := *;
      asked := asked + [Ask(me, id, redrive, request, answer)];
    }

    ghost method Step(me: CallId, act: Act)
      requires IsRun(worlds, labels) && Enabled(Now(), Label(me, act))
      modifies this`worlds, this`labels
      ensures IsRun(worlds, labels) && Now() == Apply(old(Now()), Label(me, act))
      ensures worlds == old(worlds) + [Now()] && labels == old(labels) + [Label(me, act)]
    {
      var next := Apply(Now(), Label(me, act));
      RunExtends(worlds, labels, Label(me, act));
      worlds, labels := worlds + [next], labels + [Label(me, act)];
    }

    // ---------------------------------------------------------------- the event repository

    method ClaimEvent(id: EventId, e: NewEvent) returns (claimed: Claimed)
      modifies this`rows
      ensures (claimed, rows) == EventTables.ClaimEvent(old(rows), id, e)
    {
      if taken :| taken in rows && SameSlot(rows[taken], e.connectorId, e.businessKey) {
        return Conflict;
      }
      if id in rows {
        return DuplicateId;
      }
      rows := rows[id := ReceivedRow(e)];
      return Won;
    }

    method FetchByBusinessKey(connectorId: ConnectorId, businessKey: string) returns (found: Option<EventId>)
      ensures found.Some? ==>
        && found.value in rows
        && rows[found.value].connectorId == connectorId && rows[found.value].businessKey == businessKey
      ensures found.None? ==>
        forall id | id in rows :: rows[id].connectorId != connectorId || rows[id].businessKey != businessKey
    {
      if id :| id in rows && SameSlot(rows[id], connectorId, businessKey) {
        return Some(id);
      }
      return None;
    }

    method MarkMapped(id: EventId, ref: MappedRef)
      modifies this`rows
      ensures rows == EventTables.MarkMapped(old(rows), id, ref)
    {
      if id in rows && rows[id].status == Received {
        rows := rows[id := rows[id].(status := Mapped, refType := Some(ref.refType), refId := Some(ref.refId))];
      }
    }

    method MarkIgnored(id: EventId, reason: string)
      modifies this`rows
      ensures rows == EventTables.MarkIgnored(old(rows), id, reason)
    {
      if id in rows && rows[id].status == Received {
        rows := rows[id := rows[id].(status := Ignored, errorDetail := Some(reason))];
      }
    }

    method MarkFailed(id: EventId, detail: string)
      modifies this`rows
      ensures rows == EventTables.MarkFailed(old(rows), id, detail)
    {
      if id in rows && rows[id].status == Received {
        rows := rows[id := rows[id].(status := Failed, errorDetail := Some(detail))];
      }
    }

    method RetryMarkMapped(id: EventId, ref: MappedRef) returns (affected: nat)
      modifies this`rows
      ensures rows == EventTables.RetryMarkMapped(old(rows), id, ref)
      ensures affected == if Matches(old(rows), id, Failed) then 1 else 0
    {
      affected := 0;
      if id in rows && rows[id].status == Failed {
        rows := rows[id := rows[id].(status := Mapped, refType := Some(ref.refType), refId := Some(ref.refId),
                                     errorDetail := None)];
        affected := 1;
      }
    }

    method RetryMarkIgnored(id: EventId, reason: string)
      modifies this`rows
      ensures rows == EventTables.RetryMarkIgnored(old(rows), id, reason)
    {
      if id in rows && rows[id].status == Failed {
        rows := rows[id := rows[id].(status := Ignored, errorDetail := Some(reason))];
      }
    }

    method SetErrorDetail(id: EventId, detail: string)
      modifies this`rows
      ensures rows == EventTables.SetErrorDetail(old(rows), id, detail)
    {
      if id in rows && rows[id].status == Failed {
        rows := rows[id := rows[id].(errorDetail := Some(detail))];
      }
    }

    /** The connector's failed events, each once. */
    method FetchFailedEvents(connectorId: ConnectorId) returns (work: seq<FailedEvent>)
      ensures IsFailedReport(rows, connectorId, work)
    {
      work := [];
      var left := rows.Keys;
      while left != {}
        invariant left <= rows.Keys
        invariant forall k | 0 <= k < |work| ::
          && work[k].id !in left && Matches(rows, work[k].id, Failed) && rows[work[k].id].connectorId == connectorId
          && work[k] == FailedEvent(work[k].id, rows[work[k].id].eventType, rows[work[k].id].externalId,
                                    rows[work[k].id].businessKey)
        invariant forall j, k | 0 <= j < k < |work| :: work[j].id != work[k].id
        invariant forall id |
            id in rows && id !in left && rows[id].status == Failed && rows[id].connectorId == connectorId ::
          exists k :: 0 <= k < |work| && work[k].id == id
        decreases left
      {
        var id :| id in left;
        left := left - {id};
        if rows[id].status == Failed && rows[id].connectorId == connectorId {
          ghost var before := work;
          work := work + [FailedEvent(id, rows[id].eventType, rows[id].externalId, rows[id].businessKey)];
          assert work[|before|].id == id;
          assert forall k | 0 <= k < |before| :: work[k] == before[k];
        }
      }
    }

    // ---------------------------------------------------------------- receive_event

    /** The answer is the row of the delivery's slot as it stands. */
    ghost predicate Reported(o: ReceiveOutcome, ev: Inbound)
      reads this
    {
      && o.eventId in rows
      && rows[o.eventId].connectorId == ev.connectorId && rows[o.eventId].businessKey == ev.businessKey
      && o.status == rows[o.eventId].status && o.mappedRefId == rows[o.eventId].refId
    }

    /** The event is no longer just received, and the relay has its first record. */
    ghost predicate Told(id: EventId)
      reads this
    {
      id in rows && rows[id].status != Received && |History(outbox, id)| == 1
    }

    /** Why the gate would refuse the delivery with this error. */
    predicate Refused(e: LaneError, ev: Inbound)
      reads this
    {
      match e
      case Invalid => Blank(ev.externalId) || Blank(ev.businessKey)
      case NotFound => ev.connectorId in connectors ==> connectors[ev.connectorId].deleted
      case InvalidState => ev.connectorId in connectors && connectors[ev.connectorId].status != "active"
      case Db => false
    }

    /** The database's error only if it gave no answer, or the new row's id was taken. */
    ghost predicate Excused(e: LaneError, ev: Inbound, newId: EventId, me: CallId)
      reads this
    {
      Refused(e, ev) || (e == Db && (me in outages || newId in rows))
    }

    /** The call ended in a re-read that found nothing. */
    ghost predicate Missed(me: CallId)
      reads this
    {
      labels != [] && labels[|labels| - 1] == Label(me, RereadMissing)
    }

    /** An Ok reports the row of the delivery's slot as it stands; the original has told the relay of it. */
    method ReceiveEvent(ev: Inbound, newId: EventId, ghost me: CallId) returns (r: Result<ReceiveOutcome, LaneError>)
      requires Valid() && me !in Now().calls
      modifies this
      ensures Valid() && me in Now().calls && Now().calls[me] == ReceiveDone(ev, r)
      ensures r.Ok? ==> Reported(r.value, ev)
      ensures r.Ok? && !r.value.duplicate ==> Told(r.value.eventId)
      ensures r.Err? ==> Excused(r.error, ev, newId, me)
      ensures Blank(ev.externalId) || Blank(ev.businessKey) ==> r == Err(Invalid)
    {
      Step(me, Enter(ev));
      r := Receive(ev, newId, me);
      if Missed(me) { RereadNeverMisses(worlds, labels, |labels| - 1); }
    }

    method Receive(ev: Inbound, newId: EventId, ghost me: CallId) returns (r: Result<ReceiveOutcome, LaneError>)
      requires Valid() && me in Now().calls && Now().calls[me] == Entered(ev)
      modifies this
      ensures Valid() && me in Now().calls && Now().calls[me] == ReceiveDone(ev, r)
      ensures r.Ok? ==> Reported(r.value, ev)
      ensures r.Ok? && !r.value.duplicate ==> Told(r.value.eventId)
      ensures r.Err? ==> Excused(r.error, ev, newId, me) || Missed(me)
      ensures Blank(ev.externalId) || Blank(ev.businessKey) ==> r == Err(Invalid)
    {
      var gate := FetchGate(ev, me);
      match gate {
        case Ok(kind) => r := ClaimSlot(ev, kind, newId, me);
        case Err(e) => return Err(e);
      }
    }

    /** Both keys there, the connector known and active. */
    method FetchGate(ev: Inbound, ghost me: CallId) returns (gate: Result<string, LaneError>)
      requires Valid() && me in Now().calls && Now().calls[me] == Entered(ev)
      modifies this
      ensures Valid() && me in Now().calls
      ensures Now().calls[me] == if gate.Ok? then Admitted(ev, gate.value) else ReceiveDone(ev, Err(gate.error))
      ensures gate.Err? ==> if gate.error == Db then me in outages else Refused(gate.error, ev)
      ensures Blank(ev.externalId) || Blank(ev.businessKey) ==> gate == Err(Invalid)
    {
      if Blank(ev.externalId) || Blank(ev.businessKey) {
        Step(me, Admit);
        return Err(Invalid);
      }
      Others(me);
      var up := Reachable(me);
      if !up { Step(me, Fail); return Err(Db); }
      if ev.connectorId !in connectors || connectors[ev.connectorId].deleted {
        Step(me, Admit);
        return Err(NotFound);
      }
      if connectors[ev.connectorId].status != "active" {
        Step(me, Admit);
        return Err(InvalidState);
      }
      gate := Ok(connectors[ev.connectorId].kind);
      Step(me, Admit);
    }

    method ClaimSlot(ev: Inbound, kind: string, newId: EventId, ghost me: CallId)
      returns (r: Result<ReceiveOutcome, LaneError>)
      requires Valid() && me in Now().calls && Now().calls[me] == Admitted(ev, kind)
      modifies this
      ensures Valid() && me in Now().calls && Now().calls[me] == ReceiveDone(ev, r)
      ensures r.Ok? ==> Reported(r.value, ev)
      ensures r.Ok? && !r.value.duplicate ==> Told(r.value.eventId)
      ensures r.Err? ==> r.error == Db && (me in outages || newId in rows || Missed(me))
    {
      Others(me);
      var up := Reachable(me);
      if !up { Step(me, Fail); return Err(Db); }
      var claimed := ClaimEvent(newId, NewEventOf(ev));
      Step(me, Claim(newId));
      match claimed {
        case DuplicateId => return Err(Db);
        case Conflict => r := Reread(ev, me);
        case Won => r := MapAndSettle(ev, kind, newId, me);
      }
    }

    method Reread(ev: Inbound, ghost me: CallId) returns (r: Result<ReceiveOutcome, LaneError>)
      requires Valid() && me in Now().calls && Now().calls[me] == Losing(ev)
      modifies this
      ensures Valid() && me in Now().calls && Now().calls[me] == ReceiveDone(ev, r)
      ensures r.Ok? ==> Reported(r.value, ev)
      ensures r.Ok? ==> r.value.duplicate
      ensures r.Err? ==> r.error == Db && (me in outages || Missed(me))
    {
      Others(me);
      var up := Reachable(me);
      if !up { Step(me, Fail); return Err(Db); }
      var found := FetchByBusinessKey(ev.connectorId, ev.businessKey);
      match found {
        case Some(id) =>
          Step(me, EventLane.Reread(id));
          return Ok(ReceiveOutcome(id, rows[id].status, rows[id].refId, true));
        case None =>
          Step(me, RereadMissing);
          return Err(Db);
      }
    }

    method MapAndSettle(ev: Inbound, kind: string, id: EventId, ghost me: CallId)
      returns (r: Result<ReceiveOutcome, LaneError>)
      requires Valid() && me in Now().calls && Now().calls[me] == Owner(ev, kind, id)
      modifies this
      ensures Valid() && me in Now().calls && Now().calls[me] == ReceiveDone(ev, r)
      ensures r.Ok? ==> Reported(r.value, ev)
      ensures r.Ok? && !r.value.duplicate ==> Told(r.value.eventId)
      ensures r.Err? ==> r.error == Db && me in outages
    {
      Others(me);
      var answer := Map(MapRequest(kind, ev.eventType, ev.externalId, ev.businessKey), id, false, me);
      Step(me, AskTarget(answer));
      r := SettleReceive(ev, id, answer, me);
    }

    method SettleReceive(ev: Inbound, id: EventId, answer: Answer, ghost me: CallId)
      returns (r: Result<ReceiveOutcome, LaneError>)
      requires Valid() && me in Now().calls && Now().calls[me] == Answered(ev, id, answer)
      modifies this
      ensures Valid() && me in Now().calls && Now().calls[me] == ReceiveDone(ev, r)
      ensures r.Ok? ==> Reported(r.value, ev)
      ensures r.Ok? && !r.value.duplicate ==> Told(r.value.eventId)
      ensures r.Err? ==> r.error == Db && me in outages
    {
      Others(me);
      var up := Reachable(me);
      if !up { Step(me, Fail); return Err(Db); }
      var outcome := Commit(ev, id, answer, me);
      return Ok(outcome);
    }

    /** The receive transaction: mark, stage, commit. */
    method Commit(ev: Inbound, id: EventId, answer: Answer, ghost me: CallId) returns (outcome: ReceiveOutcome)
      requires Valid() && me in Now().calls && Now().calls[me] == Answered(ev, id, answer)
      modifies this
      ensures Valid() && me in Now().calls && Now().calls[me] == ReceiveDone(ev, Ok(outcome))
      ensures outages == old(outages)
      ensures Reported(outcome, ev) && Told(id) && outcome.eventId == id && !outcome.duplicate
      ensures Settled(old(rows), old(outbox), id, answer)
    {
      match answer {
        case ToRef(ref) =>
          MarkMapped(id, ref);
          outbox := outbox + [OutboxRecord(id, ev.connectorId, MappedNotice(ev.eventType, ev.externalId, ref))];
          outcome := ReceiveOutcome(id, Mapped, Some(ref.refId), false);
        case NoAction(reason) =>
          MarkIgnored(id, reason);
          outbox := outbox + [OutboxRecord(id, ev.connectorId, IgnoredNotice(ev.externalId, reason))];
          outcome := ReceiveOutcome(id, Ignored, None, false);
        case Rejected(code, message) =>
          MarkFailed(id, message);
          outbox := outbox + [OutboxRecord(id, ev.connectorId, FailedNotice(ev.externalId, code))];
          outcome := ReceiveOutcome(id, Failed, None, false);
      }
      CommitSettle(ev, id, answer, me);
    }

    /** The row `id` has taken the answer, and the relay is told of it. */
    ghost predicate Settled(before: Events, staged: seq<OutboxRecord>, id: EventId, answer: Answer)
      reads this
    {
      && OnlyMoves(before, rows, id) && OutcomeColumns(before[id], rows[id], answer)
      && exists n :: Tells(before[id], answer, n) && outbox == staged + [OutboxRecord(id, before[id].connectorId, n)]
    }

    ghost method CommitSettle(ev: Inbound, id: EventId, answer: Answer, me: CallId)
      requires IsRun(worlds, labels) && me in Now().calls && Now().calls[me] == Answered(ev, id, answer)
      requires Now().connectors == connectors && Now().asks == asked && outages <= Now().calls.Keys
      requires rows == Marked(Now().rows, id, answer)
      requires outbox == Now().outbox + [OutboxRecord(id, ev.connectorId,
                                                      NoticeOf(ev.eventType, ev.externalId, answer))]
      modifies this`worlds, this`labels
      ensures Valid() && id in rows && me in Now().calls
      ensures Now().calls[me] == ReceiveDone(ev, Ok(OutcomeOf(id, answer)))
      ensures OutcomeOf(id, answer) == ReceiveOutcome(id, rows[id].status, rows[id].refId, false)
      ensures Reported(OutcomeOf(id, answer), ev) && Told(id)
      ensures Settled(old(Now().rows), old(Now().outbox), id, answer)
    {
      Step(me, Settle);
      SettleWrites(worlds, labels, |labels| - 1, me);
    }

    // ---------------------------------------------------------------- retry_failed

    /** An Ok is the number of events this run took from failed to mapped; that it worked through all that
        had failed is `EventAnswers.EveryFailedIsRedriven`. */
    method RetryFailed(connectorId: ConnectorId, ghost me: CallId) returns (r: Result<nat, LaneError>)
      requires Valid() && me !in Now().calls
      modifies this
      ensures Valid() && me in Now().calls && Now().calls[me] == RetryDone(connectorId, r)
      ensures r.Ok? ==> r.value == CountOf(Now().recoveries, me)
      ensures r.Err? ==> (if r.error == Db then me in outages else r.error == NotFound && connectorId !in connectors)
    {
      Step(me, EnterRetry(connectorId));
      r := Retry(connectorId, me);
      assert CountHolds(Now().recoveries, me, Now().calls[me]) by { RunSound(worlds, labels, |labels|); }
    }

    method Retry(connectorId: ConnectorId, ghost me: CallId) returns (r: Result<nat, LaneError>)
      requires Valid() && me in Now().calls && Now().calls[me] == RetryEntered(connectorId)
      modifies this
      ensures Valid() && me in Now().calls && Now().calls[me] == RetryDone(connectorId, r)
      ensures r.Err? ==> (if r.error == Db then me in outages else r.error == NotFound && connectorId !in connectors)
    {
      Others(me);
      var up := Reachable(me);
      if !up { Step(me, Fail); return Err(Db); }
      if connectorId !in connectors {
        Step(me, AdmitRetry);
        return Err(NotFound);
      }
      var kind := connectors[connectorId].kind;
      Step(me, AdmitRetry);
      r := FetchAndRedrive(connectorId, kind, me);
    }

    method FetchAndRedrive(connectorId: ConnectorId, kind: string, ghost me: CallId) returns (r: Result<nat, LaneError>)
      requires Valid() && me in Now().calls && Now().calls[me] == RetryAdmitted(connectorId, kind)
      modifies this
      ensures Valid() && me in Now().calls && Now().calls[me] == RetryDone(connectorId, r)
      ensures r.Err? ==> r.error == Db && me in outages
    {
      Others(me);
      var up := Reachable(me);
      if !up { Step(me, Fail); return Err(Db); }
      var work := FetchFailedEvents(connectorId);
      Step(me, FetchFailed(work));

      r := RedriveAll(connectorId, kind, work, me);
    }

    method RedriveAll(connectorId: ConnectorId, kind: string, work: seq<FailedEvent>, ghost me: CallId)
      returns (r: Result<nat, LaneError>)
      requires Valid() && me in Now().calls && Now().calls[me] == Retrying(connectorId, kind, work, 0, 0)
      modifies this
      ensures Valid() && me in Now().calls && Now().calls[me] == RetryDone(connectorId, r)
      ensures r.Err? ==> r.error == Db && me in outages
    {
      var mapped := 0;
      for i := 0 to |work|
        invariant Valid() && me in Now().calls && Now().calls[me] == Retrying(connectorId, kind, work, i, mapped)
      {
        var counted := RedriveOne(connectorId, kind, work, i, mapped, me);
        if counted.Err? {
          return Err(counted.error);
        }
        if counted.value {
          mapped := mapped + 1;
        }
      }
      Step(me, Finish);
      return Ok(mapped);
    }

    /** One turn of the retry loop: ask the target, then commit; true when the run may count it. */
    method RedriveOne(connectorId: ConnectorId, kind: string, work: seq<FailedEvent>, i: nat, ghost mapped: nat,
                      ghost me: CallId)
      returns (counted: Result<bool, LaneError>)
      requires Valid() && i < |work| && me in Now().calls
      requires Now().calls[me] == Retrying(connectorId, kind, work, i, mapped)
      modifies this
      ensures Valid() && me in Now().calls
      ensures Now().calls[me] ==
        match counted
        case Ok(more) => Retrying(connectorId, kind, work, i + 1, if more then mapped + 1 else mapped)
        case Err(e) => RetryDone(connectorId, Err(e))
      ensures counted.Err? ==> counted.error == Db && me in outages
    {
      var answer := AskAgain(connectorId, kind, work, i, mapped, me);
      Others(me);
      var up := Reachable(me);
      if !up { Step(me, Fail); return Err(Db); }
      var more := SettleOne(connectorId, kind, work, i, mapped, answer, me);
      return Ok(more);
    }

    /** The target's next answer for a failed event, under the same key. */
    method AskAgain(ghost connectorId: ConnectorId, kind: string, work: seq<FailedEvent>, i: nat, ghost mapped: nat,
                    ghost me: CallId)
      returns (answer: Answer)
      requires Valid() && i < |work| && me in Now().calls
      requires Now().calls[me] == Retrying(connectorId, kind, work, i, mapped)
      modifies this
      ensures Valid() && me in Now().calls
      ensures Now().calls[me] == RetryAnswered(connectorId, kind, work, i, mapped, answer)
    {
      var f := work[i];
      Others(me);
      answer := Map(MapRequest(kind, f.eventType, f.externalId, f.businessKey), f.id, true, me);
      Step(me, Redrive(answer));
    }

    /** The commit of one retried event; true when the run may count it. */
    method SettleOne(connectorId: ConnectorId, ghost kind: string, work: seq<FailedEvent>, i: nat, ghost mapped: nat,
                     answer: Answer, ghost me: CallId)
      returns (counted: bool)
      requires Valid() && i < |work|
      requires me in Now().calls && Now().calls[me] == RetryAnswered(connectorId, kind, work, i, mapped, answer)
      modifies this
      ensures Valid() && me in Now().calls && outages == old(outages)
      ensures Now().calls[me] == Retrying(connectorId, kind, work, i + 1, if counted then mapped + 1 else mapped)
      ensures Resettled(old(rows), old(outbox), work[i].id, answer, counted)
    {
      var f := work[i];
      counted := false;
      match answer {
        case ToRef(ref) =>
          var m := RetryMarkMapped(f.id, ref);
          if m == 1 {
            outbox := outbox + [OutboxRecord(f.id, connectorId, MappedNotice(f.eventType, f.externalId, ref))];
            counted := true;
          }
        case NoAction(reason) => RetryMarkIgnored(f.id, reason);
        case Rejected(_, message) => SetErrorDetail(f.id, message);
      }
      CommitRetry(connectorId, kind, work, i, mapped, answer, counted, me);
    }

    /** A failed row has taken the answer, any other is left; one that is now mapped is counted and told of. */
    ghost predicate Resettled(before: Events, staged: seq<OutboxRecord>, id: EventId, answer: Answer, counted: bool)
      reads this
    {
      && id in before
      && (if before[id].status == Failed
          then OnlyMoves(before, rows, id) && OutcomeColumns(before[id], rows[id], answer) else rows == before)
      && (counted <==> before[id].status == Failed && answer.ToRef?)
      && outbox == if counted
                   then staged + [OutboxRecord(id, before[id].connectorId,
                                               MappedNotice(before[id].eventType, before[id].externalId, answer.ref))]
                   else staged
    }

    ghost method CommitRetry(connectorId: ConnectorId, kind: string, work: seq<FailedEvent>, i: nat, mapped: nat,
                             answer: Answer, counted: bool, me: CallId)
      requires IsRun(worlds, labels) && i < |work|
      requires me in Now().calls && Now().calls[me] == RetryAnswered(connectorId, kind, work, i, mapped, answer)
      requires Now().connectors == connectors && Now().asks == asked && outages <= Now().calls.Keys
      requires rows == RetryMarked(Now().rows, work[i].id, answer)
      requires counted <==> RetryWins(Now().rows, Now().calls[me])
      requires
        var f := work[i];
        outbox == if counted
                  then Now().outbox + [OutboxRecord(f.id, connectorId,
                                                    MappedNotice(f.eventType, f.externalId, answer.ref))]
                  else Now().outbox
      modifies this`worlds, this`labels
      ensures Valid() && me in Now().calls
      ensures Now().calls[me] == Retrying(connectorId, kind, work, i + 1, if counted then mapped + 1 else mapped)
      ensures Resettled(old(Now().rows), old(Now().outbox), work[i].id, answer, counted)
    {
      Step(me, SettleRetry);
      SettleRetryWrites(worlds, labels, |labels| - 1, me);
    }
  }
}
