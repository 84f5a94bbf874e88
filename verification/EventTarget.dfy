/** The target's side of the lane: what it was asked, under which key, and what became of its answers. */
module EventTarget {
  import opened Outcomes
  import opened EventTables
  import opened EventLane
  import opened EventInvariants

  ghost predicate Gave(asks: seq<Ask>, id: EventId, ref: MappedRef) {
    exists i :: 0 <= i < |asks| && asks[i].eventId == id && asks[i].answer == ToRef(ref)
  }

  ghost predicate AsksHold(w: World) {
    && (forall i | 0 <= i < |w.asks| ::
          && w.asks[i].eventId in w.rows
          && w.asks[i].request.idempotencyKey == w.rows[w.asks[i].eventId].businessKey
          && (!w.asks[i].redrive ==> w.asks[i].caller in w.claims && w.claims[w.asks[i].caller] == w.asks[i].eventId))
    && (forall i, j | 0 <= i < j < |w.asks| && !w.asks[i].redrive && !w.asks[j].redrive ::
          w.asks[i].caller != w.asks[j].caller)
    && (forall i | 0 <= i < |w.asks| && !w.asks[i].redrive ::
          && w.asks[i].caller in w.calls
          && (w.calls[w.asks[i].caller].Answered? || w.calls[w.asks[i].caller].ReceiveDone?))
  }

  /** A reference in a caller's hands came from the target, for that event. */
  ghost predicate Told(asks: seq<Ask>, call: Call) {
    match call
    case Answered(_, id, ToRef(ref)) => Gave(asks, id, ref)
    case RetryAnswered(_, _, work, next, _, ToRef(ref)) => next < |work| ==> Gave(asks, work[next].id, ref)
    case _ => true
  }

  ghost predicate PendingHold(w: World) {
    forall c | c in w.calls :: Told(w.asks, w.calls[c])
  }

  ghost predicate AnswersHold(w: World) {
    && PendingHold(w)
    && (forall id | id in w.rows && w.rows[id].status == Mapped && Shaped(w.rows[id]) ::
          Gave(w.asks, id, RefOf(w.rows[id])))
  }

  lemma GaveStill(a: seq<Ask>, b: seq<Ask>, id: EventId, ref: MappedRef)
    requires Gave(a, id, ref) && |a| <= |b| && b[..|a|] == a
    ensures Gave(b, id, ref)
  {
    var i :| 0 <= i < |a| && a[i].eventId == id && a[i].answer == ToRef(ref);
    assert b[i] == b[..|a|][i];
  }

  lemma GaveLast(a: seq<Ask>, x: Ask)
    requires x.answer.ToRef?
    ensures Gave(a + [x], x.eventId, x.answer.ref)
  {
    assert (a + [x])[|a|] == x;
  }

  // ---------------------------------------------------------------- preservation

  ghost predicate ClaimsGrow(w: World, v: World) {
    forall c | c in w.claims :: c in v.claims && v.claims[c] == w.claims[c]
  }

  predicate Asked(call: Call) {
    call.Answered? || call.ReceiveDone?
  }

  /** Once a receive call is past its question it stays past it. */
  ghost predicate AskedStay(w: World, v: World) {
    forall c | c in w.calls && Asked(w.calls[c]) :: c in v.calls && Asked(v.calls[c])
  }

  lemma StepClaims(w: World, l: Label)
    requires Enabled(w, l) && (l.act.Claim? ==> l.caller !in w.claims)
    ensures ClaimsGrow(w, Apply(w, l)) && AskedStay(w, Apply(w, l))
  {
  }

  lemma UnclaimedAtClaim(w: World, l: Label)
    requires Inv(w) && Enabled(w, l)
    ensures l.act.Claim? ==> l.caller !in w.claims
  {
    if l.act.Claim? { assert CallHolds(w, l.caller); }
  }

  lemma AsksSurvive(w: World, v: World)
    requires AsksHold(w) && RowsEvolve(w.rows, v.rows) && ClaimsGrow(w, v) && AskedStay(w, v) && v.asks == w.asks
    ensures AsksHold(v)
  {
    forall i | 0 <= i < |v.asks|
      ensures v.asks[i].eventId in v.rows && v.asks[i].request.idempotencyKey == v.rows[v.asks[i].eventId].businessKey
    {
      assert w.asks[i].eventId in w.rows;
      assert RowEvolves(w.rows[w.asks[i].eventId], v.rows[w.asks[i].eventId]);
    }
  }

  lemma AskAdded(w: World, v: World, x: Ask)
    requires AsksHold(w) && v.rows == w.rows && ClaimsGrow(w, v) && AskedStay(w, v) && v.asks == w.asks + [x]
    requires x.eventId in w.rows && x.request.idempotencyKey == w.rows[x.eventId].businessKey
    requires !x.redrive ==> && x.caller in v.claims && v.claims[x.caller] == x.eventId
                            && x.caller in w.calls && !Asked(w.calls[x.caller])
                            && x.caller in v.calls && Asked(v.calls[x.caller])
    ensures AsksHold(v)
  {
    var n := |w.asks|;
    assert v.asks[n] == x && forall i | 0 <= i < n :: v.asks[i] == w.asks[i];
  }

  lemma AskKeeps(w: World, l: Label)
    requires Inv(w) && AsksHold(w) && Enabled(w, l) && l.act.AskTarget?
    ensures AsksHold(Apply(w, l))
  {
    var call := w.calls[l.caller];
    assert Held(w, l.caller, call.ev, call.id) by { assert CallHolds(w, l.caller); }
    StepClaims(w, l);
    AskAdded(w, Apply(w, l), Ask(l.caller, call.id, false, ReceiveRequest(call.ev, call.kind), l.act.answer));
  }

  lemma RedriveKeeps(w: World, l: Label)
    requires Inv(w) && AsksHold(w) && Enabled(w, l) && l.act.Redrive?
    ensures AsksHold(Apply(w, l))
  {
    var call := w.calls[l.caller];
    var f := call.work[call.next];
    assert WorkHolds(w.rows, call.connectorId, f) by { assert CallHolds(w, l.caller); }
    StepClaims(w, l);
    AskAdded(w, Apply(w, l), Ask(l.caller, f.id, true, RetryRequest(f, call.kind), l.act.answer));
  }

  lemma QuietStep(w: World, l: Label)
    requires Enabled(w, l) && !l.act.AskTarget? && !l.act.Redrive?
    ensures Apply(w, l).asks == w.asks
  {
    match l.act {
      case Claim(_) =>
      case _ =>
    }
  }

  lemma AsksKeep(w: World, l: Label)
    requires Inv(w) && AsksHold(w) && Enabled(w, l)
    ensures AsksHold(Apply(w, l))
  {
    if l.act.AskTarget? {
      AskKeeps(w, l);
    } else if l.act.Redrive? {
      RedriveKeeps(w, l);
    } else {
      StepKeeps(w, l);
      UnclaimedAtClaim(w, l);
      StepClaims(w, l);
      QuietStep(w, l);
      AsksSurvive(w, Apply(w, l));
    }
  }

  /** Whoever is answered with a reference after a step was told it by the target. */
  lemma PendingKeep(w: World, l: Label)
    requires PendingHold(w) && Enabled(w, l)
    ensures PendingHold(Apply(w, l))
  {
    var v := Apply(w, l);
    GaveStep(w, l);
    if !l.act.EditConnector? { MoverTold(w, l); }
    forall c | c in v.calls ensures Told(v.asks, v.calls[c]) {
      if c != l.caller {
        assert c in w.calls && v.calls[c] == w.calls[c];
        assert Told(w.asks, w.calls[c]);
      } else if l.act.EditConnector? {
        assert Told(w.asks, w.calls[c]);
      }
    }
  }

  lemma MoverTold(w: World, l: Label)
    requires Enabled(w, l) && !l.act.EditConnector?
    ensures l.caller in Apply(w, l).calls && Told(Apply(w, l).asks, Apply(w, l).calls[l.caller])
  {
    var v := Apply(w, l);
    if (l.act.AskTarget? || l.act.Redrive?) && l.act.answer.ToRef? { GaveLast(w.asks, v.asks[|w.asks|]); }
  }

  lemma GaveStep(w: World, l: Label)
    requires Enabled(w, l)
    ensures forall id, ref | Gave(w.asks, id, ref) :: Gave(Apply(w, l).asks, id, ref)
  {
    var v := Apply(w, l);
    assert |w.asks| <= |v.asks| && v.asks[..|w.asks|] == w.asks;
    forall id, ref | Gave(w.asks, id, ref) ensures Gave(v.asks, id, ref) { GaveStill(w.asks, v.asks, id, ref); }
  }

  /** A row that is not yet mapped is mapped in a step only with the reference its call was answered. */
  lemma MappedBy(w: World, l: Label, id: EventId)
    requires PendingHold(w) && Enabled(w, l)
    requires id in Apply(w, l).rows && Apply(w, l).rows[id].status == Mapped && Shaped(Apply(w, l).rows[id])
    requires id in w.rows ==> w.rows[id] != Apply(w, l).rows[id]
    ensures Gave(w.asks, id, RefOf(Apply(w, l).rows[id]))
  {
    assert l.act.Settle? || l.act.SettleRetry?;
    assert Told(w.asks, w.calls[l.caller]);
  }

  lemma AnswersKeep(w: World, l: Label)
    requires Inv(w) && AnswersHold(w) && Enabled(w, l)
    ensures AnswersHold(Apply(w, l))
  {
    var v := Apply(w, l);
    PendingKeep(w, l);
    GaveStep(w, l);
    forall id | id in v.rows && v.rows[id].status == Mapped && Shaped(v.rows[id])
      ensures Gave(v.asks, id, RefOf(v.rows[id]))
    {
      if id !in w.rows || w.rows[id] != v.rows[id] { MappedBy(w, l, id); }
    }
  }
}
