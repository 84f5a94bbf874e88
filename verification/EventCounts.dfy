/** What `retry_failed` counts: its own `failed → mapped` transitions, each of them once over all runs. */
module EventCounts {
  import opened Outcomes
  import opened EventTables
  import opened EventLane
  import opened EventInvariants
  import opened Lists

  function CountOf(rs: seq<Recovery>, c: CallId): nat {
    if rs == [] then 0 else CountOf(rs[..|rs| - 1], c) + (if rs[|rs| - 1].caller == c then 1 else 0)
  }

  /** Transitions committed by any of these calls. */
  function CountIn(rs: seq<Recovery>, cs: set<CallId>): nat {
    if rs == [] then 0 else CountIn(rs[..|rs| - 1], cs) + (if rs[|rs| - 1].caller in cs then 1 else 0)
  }

  predicate CountHolds(rs: seq<Recovery>, c: CallId, call: Call) {
    match call
    case Retrying(_, _, _, _, mapped) => mapped == CountOf(rs, c)
    case RetryAnswered(_, _, _, _, mapped, _) => mapped == CountOf(rs, c)
    case RetryDone(_, Ok(n)) => n == CountOf(rs, c)
    case RetryDone(_, Err(_)) => true
    case _ => CountOf(rs, c) == 0
  }

  predicate Logged(rs: seq<Recovery>, id: EventId) {
    exists i :: 0 <= i < |rs| && rs[i].eventId == id
  }

  /** The recovered events are exactly those staged as failed and then as mapped, each once. */
  ghost predicate RecoveriesHold(w: World) {
    && (forall i | 0 <= i < |w.recoveries| :: Matches(w.rows, w.recoveries[i].eventId, Mapped))
    && (forall i, j | 0 <= i < j < |w.recoveries| :: w.recoveries[i].eventId != w.recoveries[j].eventId)
    && (forall id :: |History(w.outbox, id)| == 2 <==> Logged(w.recoveries, id))
  }

  ghost predicate CountsHold(w: World) {
    && (forall c | c in w.calls :: CountHolds(w.recoveries, c, w.calls[c]))
    && (forall c | c !in w.calls :: CountOf(w.recoveries, c) == 0)
  }

  lemma CountOfAppended(rs: seq<Recovery>, r: Recovery, c: CallId)
    ensures CountOf(rs + [r], c) == CountOf(rs, c) + (if r.caller == c then 1 else 0)
  {
    assert (rs + [r])[..|rs|] == rs;
  }

  lemma CountsAfterSettleRetry(w: World, c: CallId)
    requires CountsHold(w) && Enabled(w, Label(c, SettleRetry))
    ensures CountsHold(Apply(w, Label(c, SettleRetry)))
  {
    var v := Apply(w, Label(c, SettleRetry));
    var f := w.calls[c].work[w.calls[c].next];
    assert CountHolds(w.recoveries, c, w.calls[c]);
    var more := if v.recoveries != w.recoveries then 1 else 0;
    forall d ensures CountOf(v.recoveries, d) == CountOf(w.recoveries, d) + (if d == c then more else 0) {
      if v.recoveries != w.recoveries { CountOfAppended(w.recoveries, Recovery(c, f.id), d); }
    }
    forall d | d in v.calls ensures CountHolds(v.recoveries, d, v.calls[d]) {
      if d != c { assert CountHolds(w.recoveries, d, w.calls[d]); }
    }
  }

  lemma CountsMove(w: World, v: World, c: CallId)
    requires CountsHold(w) && v.recoveries == w.recoveries
    requires
      || v.calls == w.calls
      || (c in v.calls && v.calls == w.calls[c := v.calls[c]] && CountHolds(w.recoveries, c, v.calls[c]))
    ensures CountsHold(v)
  {
    forall d | d in v.calls ensures CountHolds(v.recoveries, d, v.calls[d]) {
      if d != c || v.calls == w.calls { assert CountHolds(w.recoveries, d, w.calls[d]); }
    }
  }

  lemma CountsKeep(w: World, l: Label)
    requires CountsHold(w) && Enabled(w, l)
    ensures CountsHold(Apply(w, l))
  {
    if l.act.SettleRetry? {
      CountsAfterSettleRetry(w, l.caller);
    } else {
      if !l.act.EditConnector? { OwnCount(w, l); }
      CountsMove(w, Apply(w, l), l.caller);
    }
  }

  lemma OwnCount(w: World, l: Label)
    requires CountsHold(w) && Enabled(w, l) && !l.act.SettleRetry? && !l.act.EditConnector?
    ensures l.caller in Apply(w, l).calls && CountHolds(w.recoveries, l.caller, Apply(w, l).calls[l.caller])
  {
    if l.caller in w.calls { assert CountHolds(w.recoveries, l.caller, w.calls[l.caller]); }
  }

  lemma MappedStay(w: World, v: World)
    requires RowsEvolve(w.rows, v.rows)
    ensures forall id | Matches(w.rows, id, Mapped) :: Matches(v.rows, id, Mapped)
  {
  }

  lemma RecoveryAdded(w: World, v: World, c: CallId, id: EventId, n: Notice, connectorId: ConnectorId)
    requires TablesAgree(w.rows, w.outbox) && RecoveriesHold(w) && RowsEvolve(w.rows, v.rows)
    requires Matches(w.rows, id, Failed) && Matches(v.rows, id, Mapped)
    requires v.recoveries == w.recoveries + [Recovery(c, id)]
    requires v.outbox == w.outbox + [OutboxRecord(id, connectorId, n)]
    ensures RecoveriesHold(v)
  {
    MappedStay(w, v);
    HistoriesAfter(w.outbox, OutboxRecord(id, connectorId, n));
    assert RowAgrees(w.rows, w.outbox, id);
    assert forall i | 0 <= i < |w.recoveries| :: v.recoveries[i] == w.recoveries[i];
    forall j ensures |History(v.outbox, j)| == 2 <==> Logged(v.recoveries, j) {
      LoggedAppended(w.recoveries, Recovery(c, id), j);
    }
  }

  lemma LoggedAppended(rs: seq<Recovery>, r: Recovery, id: EventId)
    ensures Logged(rs + [r], id) <==> r.eventId == id || Logged(rs, id)
  {
    assert (rs + [r])[|rs|] == r;
    assert forall i | 0 <= i < |rs| :: (rs + [r])[i] == rs[i];
  }

  lemma RecoveriesSame(w: World, v: World)
    requires RecoveriesHold(w) && RowsEvolve(w.rows, v.rows) && v.recoveries == w.recoveries
    requires forall id :: |History(v.outbox, id)| == 2 <==> |History(w.outbox, id)| == 2
    ensures RecoveriesHold(v)
  {
    MappedStay(w, v);
  }

  lemma RecoveriesAfterSettle(w: World, c: CallId)
    requires Inv(w) && RecoveriesHold(w) && c in w.calls && w.calls[c].Answered?
    ensures RecoveriesHold(Apply(w, Label(c, Settle)))
  {
    var v := Apply(w, Label(c, Settle));
    SettleMatches(w, c);
    SettledTables(w.rows, w.outbox, w.calls[c].id, w.calls[c].ev, w.calls[c].answer);
    HistoriesAfter(w.outbox, v.outbox[|w.outbox|]);
    RecoveriesSame(w, v);
  }

  lemma RecoveriesAfterRetry(w: World, c: CallId)
    requires Inv(w) && RecoveriesHold(w) && c in w.calls && w.calls[c].RetryAnswered?
    requires w.calls[c].next < |w.calls[c].work|
    ensures RecoveriesHold(Apply(w, Label(c, SettleRetry)))
  {
    var call := w.calls[c];
    var f := call.work[call.next];
    var v := Apply(w, Label(c, SettleRetry));
    assert WorkHolds(w.rows, call.connectorId, f) by { assert CallHolds(w, c); }
    RedrivenTables(w.rows, w.outbox, call.connectorId, f, call.answer);
    if call.answer.ToRef? && Matches(w.rows, f.id, Failed) {
      RecoveryAdded(w, v, c, f.id, MappedNotice(f.eventType, f.externalId, call.answer.ref), call.connectorId);
    } else {
      RecoveriesSame(w, v);
    }
  }

  lemma QuietOutbox(w: World, l: Label)
    requires Enabled(w, l) && !l.act.Settle? && !l.act.SettleRetry?
    ensures Apply(w, l).outbox == w.outbox && Apply(w, l).recoveries == w.recoveries
  {
    match l.act {
      case Claim(_) =>
      case _ =>
    }
  }

  lemma RecoveriesKeep(w: World, l: Label)
    requires Inv(w) && RecoveriesHold(w) && Enabled(w, l)
    ensures RecoveriesHold(Apply(w, l))
  {
    if l.act.Settle? {
      RecoveriesAfterSettle(w, l.caller);
    } else if l.act.SettleRetry? {
      RecoveriesAfterRetry(w, l.caller);
    } else {
      StepKeeps(w, l);
      QuietOutbox(w, l);
      RecoveriesSame(w, Apply(w, l));
    }
  }

  // ---------------------------------------------------------------- sums over runs

  function SumOfCounts(rs: seq<Recovery>, cs: seq<CallId>): nat {
    if cs == [] then 0 else CountOf(rs, cs[0]) + SumOfCounts(rs, cs[1..])
  }

  lemma {:induction false} CountInSplits(rs: seq<Recovery>, c: CallId, cs: set<CallId>)
    requires c !in cs
    ensures CountIn(rs, {c} + cs) == CountOf(rs, c) + CountIn(rs, cs)
  {
    if rs == [] {
    } else {
      CountInSplits(rs[..|rs| - 1], c, cs);
    }
  }

  lemma {:induction false} CountInNone(rs: seq<Recovery>)
    ensures CountIn(rs, {}) == 0
  {
    if rs == [] {
    } else {
      CountInNone(rs[..|rs| - 1]);
    }
  }

  lemma {:induction false} SumIsCountIn(rs: seq<Recovery>, cs: seq<CallId>)
    requires Distinct(cs)
    ensures SumOfCounts(rs, cs) == CountIn(rs, AsSet(cs))
  {
    if cs == [] {
      assert AsSet(cs) == {};
      CountInNone(rs);
    } else {
      var rest := cs[1..];
      assert AsSet(cs) == {cs[0]} + AsSet(rest);
      assert forall c | c in rest :: exists j :: 1 <= j < |cs| && cs[j] == c;
      CountInSplits(rs, cs[0], AsSet(rest));
      SumIsCountIn(rs, rest);
    }
  }
}
