/** The lane's guarantees over whole runs: any interleaving of deliveries and retries, any call
    stopping anywhere. */
module EventResults {
  import opened Outcomes
  import opened EventTables
  import opened EventLane
  import opened EventInvariants
  import opened EventTarget
  import opened EventCounts
  import opened Lists

  ghost predicate Sound(w: World) {
    Inv(w) && AsksHold(w) && AnswersHold(w) && CountsHold(w) && RecoveriesHold(w)
  }

  lemma SoundStep(w: World, l: Label)
    requires Sound(w) && Enabled(w, l)
    ensures Sound(Apply(w, l)) && RowsEvolve(w.rows, Apply(w, l).rows)
  {
    StepKeeps(w, l);
    AsksKeep(w, l);
    AnswersKeep(w, l);
    CountsKeep(w, l);
    RecoveriesKeep(w, l);
  }

  lemma {:induction false} RunSound(worlds: seq<World>, labels: seq<Label>, k: nat)
    requires IsRun(worlds, labels) && k < |worlds|
    ensures Sound(worlds[k])
  {
    if k == 0 {
    } else {
      RunSound(worlds, labels, k - 1);
      assert StepAt(worlds, labels, k - 1);
      SoundStep(worlds[k - 1], labels[k - 1]);
    }
  }

  lemma RunStepRows(worlds: seq<World>, labels: seq<Label>, k: nat)
    requires IsRun(worlds, labels) && k < |labels|
    ensures RowsEvolve(worlds[k].rows, worlds[k + 1].rows)
  {
    RunSound(worlds, labels, k);
    assert StepAt(worlds, labels, k);
    SoundStep(worlds[k], labels[k]);
  }

  lemma EvolveTransitive(a: Events, b: Events, c: Events)
    requires RowsEvolve(a, b) && RowsEvolve(b, c)
    ensures RowsEvolve(a, c)
  {
    forall id | id in a ensures id in c && RowEvolves(a[id], c[id]) {
      assert RowEvolves(a[id], b[id]) && RowEvolves(b[id], c[id]);
    }
  }

  /** Rows are never deleted, keep their identity, move received → mapped | ignored | failed and
      failed → mapped | ignored only, and are frozen once mapped or ignored. */
  lemma {:induction false} RowsOverTime(worlds: seq<World>, labels: seq<Label>, j: nat, k: nat)
    requires IsRun(worlds, labels) && j <= k < |worlds|
    ensures RowsEvolve(worlds[j].rows, worlds[k].rows)
    decreases k
  {
    if j == k {
    } else {
      RowsOverTime(worlds, labels, j, k - 1);
      RunStepRows(worlds, labels, k - 1);
      EvolveTransitive(worlds[j].rows, worlds[k - 1].rows, worlds[k].rows);
    }
  }

  lemma FinalRowsFrozen(worlds: seq<World>, labels: seq<Label>, j: nat, k: nat, id: EventId)
    requires IsRun(worlds, labels) && j <= k < |worlds|
    requires id in worlds[j].rows && worlds[j].rows[id].status in {Mapped, Ignored}
    ensures id in worlds[k].rows && worlds[k].rows[id] == worlds[j].rows[id]
  {
    RowsOverTime(worlds, labels, j, k);
    assert RowEvolves(worlds[j].rows[id], worlds[k].rows[id]);
  }

  /** The five outbox histories: [], [Mapped], [Ignored], [Failed], [Failed, Mapped], each with its row. */
  lemma OutboxMatchesRow(worlds: seq<World>, labels: seq<Label>, k: nat, id: EventId)
    requires IsRun(worlds, labels) && k < |worlds|
    ensures var w := worlds[k]; var h := History(w.outbox, id);
      && (id !in w.rows ==> h == [])
      && (id in w.rows ==>
            && Shaped(w.rows[id])
            && (h == [] <==> w.rows[id].status == Received)
            && (h != [] && h[|h| - 1].MappedNotice? <==> w.rows[id].status == Mapped)
            && (w.rows[id].status == Mapped ==>
                  && h[|h| - 1] == MappedNotice(w.rows[id].eventType, w.rows[id].externalId, RefOf(w.rows[id]))
                  && (|h| == 1 || (|h| == 2 && h[0].FailedNotice?)))
            && (h != [] && h[0].IgnoredNotice? ==>
                  |h| == 1 && w.rows[id].status == Ignored && h[0].reason == w.rows[id].errorDetail.value)
            && (|h| == 1 && h[0].FailedNotice? <==>
                  w.rows[id].status == Failed || (w.rows[id].status == Ignored && !h[0].IgnoredNotice?))
            && (w.rows[id].status == Failed ==> |h| == 1))
  {
    RunSound(worlds, labels, k);
    assert RowAgrees(worlds[k].rows, worlds[k].outbox, id);
  }

  /** One receive call per (connector, business key) claims the slot, and asks the target once. */
  lemma OneClaimPerSlot(worlds: seq<World>, labels: seq<Label>, k: nat, i: nat, j: nat)
    requires IsRun(worlds, labels) && k < |worlds|
    requires i < j < |worlds[k].asks| && !worlds[k].asks[i].redrive && !worlds[k].asks[j].redrive
    ensures var w := worlds[k];
      && w.asks[i].eventId in w.rows && w.asks[j].eventId in w.rows
      && !SameSlot(w.rows[w.asks[i].eventId], w.rows[w.asks[j].eventId].connectorId,
                   w.rows[w.asks[j].eventId].businessKey)
  {
    RunSound(worlds, labels, k);
    var w := worlds[k];
    assert w.claims[w.asks[i].caller] == w.asks[i].eventId && w.claims[w.asks[j].caller] == w.asks[j].eventId;
  }

  /** Deliveries of one business action that return agree on its event; at most one was the original. */
  lemma DeliveriesAgree(worlds: seq<World>, labels: seq<Label>, k: nat, c: CallId, d: CallId)
    requires IsRun(worlds, labels) && k < |worlds|
    requires c in worlds[k].calls && worlds[k].calls[c].ReceiveDone? && worlds[k].calls[c].received.Ok?
    requires d in worlds[k].calls && worlds[k].calls[d].ReceiveDone? && worlds[k].calls[d].received.Ok?
    requires var (a, b) := (worlds[k].calls[c].ev, worlds[k].calls[d].ev);
      a.connectorId == b.connectorId && a.businessKey == b.businessKey
    ensures var (p, q) := (worlds[k].calls[c].received.value, worlds[k].calls[d].received.value);
      && p.eventId == q.eventId
      && (c != d ==> p.duplicate || q.duplicate)
  {
    RunSound(worlds, labels, k);
    var w := worlds[k];
    assert CallHolds(w, c) && CallHolds(w, d);
  }

  /** A losing claim's re-read always finds its row. */
  lemma RereadFinds(worlds: seq<World>, labels: seq<Label>, k: nat, c: CallId)
    requires IsRun(worlds, labels) && k < |worlds|
    requires c in worlds[k].calls && worlds[k].calls[c].Losing?
    ensures !Enabled(worlds[k], Label(c, RereadMissing))
    ensures exists found :: Enabled(worlds[k], Label(c, Reread(found)))
  {
    RunSound(worlds, labels, k);
    var w := worlds[k];
    assert CallHolds(w, c);
    var ev := w.calls[c].ev;
    var found :| found in w.rows && SameSlot(w.rows[found], ev.connectorId, ev.businessKey);
    assert Enabled(w, Label(c, Reread(found)));
  }

  /** `mark_mapped`, `mark_ignored` and `mark_failed` never miss, although nobody looks at the row count. */
  lemma MarksNeverMiss(worlds: seq<World>, labels: seq<Label>, k: nat, c: CallId)
    requires IsRun(worlds, labels) && k < |worlds|
    requires Enabled(worlds[k], Label(c, Settle))
    ensures Matches(worlds[k].rows, worlds[k].calls[c].id, Received)
    ensures
      var (v, id) := (Apply(worlds[k], Label(c, Settle)), worlds[k].calls[c].id);
      v.rows[id].status == OutcomeOf(id, worlds[k].calls[c].answer).status
  {
    RunSound(worlds, labels, k);
    SettleMatches(worlds[k], c);
  }

  // ---------------------------------------------------------------- retries

  /** The counts of completed retry runs add up to the transitions those runs committed, and no event
      is recovered, or staged as mapped, twice. */
  lemma RetryCountsAddUp(worlds: seq<World>, labels: seq<Label>, k: nat, cs: seq<CallId>, counts: seq<nat>)
    requires IsRun(worlds, labels) && k < |worlds|
    requires Distinct(cs) && |counts| == |cs|
    requires forall i | 0 <= i < |cs| ::
      cs[i] in worlds[k].calls && worlds[k].calls[cs[i]].RetryDone? && worlds[k].calls[cs[i]].retried == Ok(counts[i])
    ensures Sum(counts) == CountIn(worlds[k].recoveries, AsSet(cs))
    ensures forall i, j | 0 <= i < j < |worlds[k].recoveries| ::
      worlds[k].recoveries[i].eventId != worlds[k].recoveries[j].eventId
    ensures forall i | 0 <= i < |worlds[k].recoveries| ::
      |History(worlds[k].outbox, worlds[k].recoveries[i].eventId)| == 2
  {
    RunSound(worlds, labels, k);
    forall i | 0 <= i < |cs| ensures counts[i] == CountOf(worlds[k].recoveries, cs[i]) {
      assert CountHolds(worlds[k].recoveries, cs[i], worlds[k].calls[cs[i]]);
    }
    forall i | 0 <= i < |worlds[k].recoveries| ensures Logged(worlds[k].recoveries, worlds[k].recoveries[i].eventId) {}
    SumsEqual(worlds[k].recoveries, cs, counts);
    SumIsCountIn(worlds[k].recoveries, cs);
  }

  function Sum(ns: seq<nat>): nat {
    if ns == [] then 0 else ns[0] + Sum(ns[1..])
  }

  lemma {:induction false} SumsEqual(rs: seq<Recovery>, cs: seq<CallId>, counts: seq<nat>)
    requires |counts| == |cs| && forall i | 0 <= i < |cs| :: counts[i] == CountOf(rs, cs[i])
    ensures Sum(counts) == SumOfCounts(rs, cs)
  {
    if cs == [] {
    } else {
      assert forall i | 0 <= i < |cs[1..]| :: counts[1..][i] == CountOf(rs, cs[1..][i]);
      SumsEqual(rs, cs[1..], counts[1..]);
    }
  }

  // ---------------------------------------------------------------- the idempotent target

  /** A target that answers a repeated idempotency key with the reference it gave before. */
  ghost predicate Consistent(asks: seq<Ask>) {
    forall i, j | 0 <= i < |asks| && 0 <= j < |asks| && asks[i].answer.ToRef? && asks[j].answer.ToRef?
                  && asks[i].request.idempotencyKey == asks[j].request.idempotencyKey ::
                    asks[i].answer == asks[j].answer
  }

  /** The references the target ever gave for a key: its effects under that key. */
  function Effects(asks: seq<Ask>, key: string): set<MappedRef> {
    set a | a in asks && a.answer.ToRef? && a.request.idempotencyKey == key :: a.answer.ref
  }

  /** Every mapped row stores the target's one effect for its business key, through any crashes and retries. */
  lemma MappedRowsHoldTheEffect(worlds: seq<World>, labels: seq<Label>, k: nat, id: EventId)
    requires IsRun(worlds, labels) && k < |worlds| && Consistent(worlds[k].asks)
    requires id in worlds[k].rows && worlds[k].rows[id].status == Mapped
    ensures Shaped(worlds[k].rows[id])
    ensures Effects(worlds[k].asks, worlds[k].rows[id].businessKey) == {RefOf(worlds[k].rows[id])}
  {
    RunSound(worlds, labels, k);
    var w := worlds[k];
    var row := w.rows[id];
    assert RowAgrees(w.rows, w.outbox, id);
    assert Gave(w.asks, id, RefOf(row));
    var i :| 0 <= i < |w.asks| && w.asks[i].eventId == id && w.asks[i].answer == ToRef(RefOf(row));
    assert w.asks[i] in w.asks && w.asks[i].request.idempotencyKey == row.businessKey;
    forall ref | ref in Effects(w.asks, row.businessKey) ensures ref == RefOf(row) {
      var a :| a in w.asks && a.answer.ToRef? && a.request.idempotencyKey == row.businessKey && a.answer.ref == ref;
      var j :| 0 <= j < |w.asks| && w.asks[j] == a;
    }
  }
}
