/** Received events that can no longer be settled: how they come about, that nothing brings them back, and
    that they are the only ones. */
module EventStranding {
  import opened Outcomes
  import opened EventTables
  import opened EventLane
  import opened EventInvariants
  import opened EventTarget
  import opened EventResults

  lemma ReceivedMovesInSettle(w: World, l: Label, id: EventId)
    requires Enabled(w, l) && Matches(w.rows, id, Received) && !Matches(Apply(w, l).rows, id, Received)
    ensures l.act.Settle? && w.calls[l.caller].Answered? && w.calls[l.caller].id == id
  {
  }

  /** Only the call that claimed a received row moves it. */
  lemma OnlyTheClaimerMoves(w: World, l: Label, id: EventId)
    requires Inv(w) && Enabled(w, l) && Matches(w.rows, id, Received)
    requires !Matches(Apply(w, l).rows, id, Received)
    ensures l.act.Settle? && l.caller in w.claims && w.claims[l.caller] == id && w.calls[l.caller].Answered?
  {
    ReceivedMovesInSettle(w, l, id);
    SettleMatches(w, l.caller);
  }

  /** `c` claimed `id` and ended without settling it. */
  ghost predicate Stranded(w: World, c: CallId, id: EventId) {
    c in w.claims && w.claims[c] == id && Matches(w.rows, id, Received) && c in w.calls && w.calls[c].ReceiveDone?
  }

  /** An event whose claimer ended without settling it stays received, with nothing staged, for ever:
      no retry picks it up and every redelivery is a duplicate. */
  lemma {:induction false} StrandedForEver(worlds: seq<World>, labels: seq<Label>, j: nat, k: nat, c: CallId,
                                           id: EventId)
    requires IsRun(worlds, labels) && j <= k < |worlds| && Stranded(worlds[j], c, id)
    ensures Stranded(worlds[k], c, id) && History(worlds[k].outbox, id) == []
    decreases k
  {
    if j < k {
      StrandedForEver(worlds, labels, j, k - 1, c, id);
      StrandedStep(worlds, labels, k - 1, c, id);
    }
    OutboxMatchesRow(worlds, labels, k, id);
  }

  lemma StrandedStep(worlds: seq<World>, labels: seq<Label>, k: nat, c: CallId, id: EventId)
    requires IsRun(worlds, labels) && k < |labels| && Stranded(worlds[k], c, id)
    ensures Stranded(worlds[k + 1], c, id)
  {
    RunSound(worlds, labels, k);
    assert StepAt(worlds, labels, k);
    var w := worlds[k];
    var l := labels[k];
    NotUnstranded(w, l, c, id);
    DoneStays(w, l, c);
    UnclaimedAtClaim(w, l);
    StepClaims(w, l);
  }

  lemma NotUnstranded(w: World, l: Label, c: CallId, id: EventId)
    requires Inv(w) && Enabled(w, l) && Stranded(w, c, id)
    ensures Matches(Apply(w, l).rows, id, Received)
  {
    if !Matches(Apply(w, l).rows, id, Received) { OnlyTheClaimerMoves(w, l, id); }
  }

  lemma DoneStays(w: World, l: Label, c: CallId)
    requires Enabled(w, l) && c in w.calls && !Unfinished(w.calls[c])
    ensures c in Apply(w, l).calls && Apply(w, l).calls[c] == w.calls[c]
  {
    if c == l.caller && !l.act.EditConnector? { assert false; }
  }

  // ---------------------------------------------------------------- how an event strands

  /** A run that goes on from another. */
  ghost predicate Extends(worlds: seq<World>, labels: seq<Label>, ws: seq<World>, ls: seq<Label>) {
    IsRun(ws, ls) && worlds <= ws && labels <= ls
  }

  lemma Extend(worlds: seq<World>, labels: seq<Label>, l: Label) returns (ws: seq<World>, ls: seq<Label>)
    requires IsRun(worlds, labels) && Enabled(worlds[|labels|], l)
    ensures Extends(worlds, labels, ws, ls) && |ls| == |labels| + 1 && ws[|ls|] == Apply(worlds[|labels|], l)
  {
    RunExtends(worlds, labels, l);
    ws, ls := worlds + [Apply(worlds[|labels|], l)], labels + [l];
  }

  /** A delivery that is about to claim its slot. */
  lemma Admits(worlds: seq<World>, labels: seq<Label>, c: CallId, ev: Inbound) returns (ws: seq<World>, ls: seq<Label>)
    requires IsRun(worlds, labels) && c !in worlds[|labels|].calls && Admission(worlds[|labels|].connectors, ev).Ok?
    ensures Extends(worlds, labels, ws, ls)
    ensures
      var w := worlds[|labels|];
      ws[|ls|] == w.(calls := w.calls[c := Admitted(ev, Admission(w.connectors, ev).value)])
  {
    var w := worlds[|labels|];
    ws, ls := Extend(worlds, labels, Label(c, Enter(ev)));
    ws, ls := Extend(ws, ls, Label(c, Admit));
    assert w.calls[c := Entered(ev)][c := Admitted(ev, Admission(w.connectors, ev).value)]
        == w.calls[c := Admitted(ev, Admission(w.connectors, ev).value)];
  }

  /** In any world, any admissible event whose slot is free may strand: its delivery claims the slot and
      stops before it commits. */
  lemma AnyDeliveryMayStrand(worlds: seq<World>, labels: seq<Label>, c: CallId, ev: Inbound, id: EventId)
    returns (ws: seq<World>, ls: seq<Label>)
    requires IsRun(worlds, labels) && c !in worlds[|labels|].calls && Admission(worlds[|labels|].connectors, ev).Ok?
    requires id !in worlds[|labels|].rows && !SlotTaken(worlds[|labels|].rows, ev.connectorId, ev.businessKey)
    ensures Extends(worlds, labels, ws, ls) && Stranded(ws[|ls|], c, id)
  {
    ws, ls := Admits(worlds, labels, c, ev);
    ws, ls := Extend(ws, ls, Label(c, Claim(id)));
    ws, ls := Extend(ws, ls, Label(c, Fail));
  }

  // ---------------------------------------------------------------- who can still settle

  /** `c` claimed `id`, and still has it in hand or has ended. */
  predicate Claimer(w: World, c: CallId, id: EventId) {
    && c in w.claims && w.claims[c] == id && c in w.calls
    && (w.calls[c].ReceiveDone? || ((w.calls[c].Owner? || w.calls[c].Answered?) && w.calls[c].id == id))
  }

  ghost predicate Claimed(w: World, id: EventId) {
    exists c :: Claimer(w, c, id)
  }

  ghost predicate ReceivedAreClaimed(w: World) {
    forall id | Matches(w.rows, id, Received) :: Claimed(w, id)
  }

  lemma ClaimerMoves(w: World, l: Label, c: CallId, id: EventId)
    requires Inv(w) && Enabled(w, l) && Claimer(w, c, id)
    ensures Claimer(Apply(w, l), c, id)
  {
    UnclaimedAtClaim(w, l);
    StepClaims(w, l);
  }

  /** Nothing but a claim makes a row received. */
  lemma OnlyClaimsReceive(w: World, l: Label, id: EventId)
    requires Enabled(w, l) && !l.act.Claim?
    ensures Matches(Apply(w, l).rows, id, Received) ==> Matches(w.rows, id, Received)
  {
  }

  lemma NewlyReceived(w: World, c: CallId, newId: EventId, id: EventId)
    requires Enabled(w, Label(c, Claim(newId)))
    requires !Matches(w.rows, id, Received) && Matches(Apply(w, Label(c, Claim(newId))).rows, id, Received)
    ensures Claimer(Apply(w, Label(c, Claim(newId))), c, id)
  {
  }

  lemma ReceivedAreClaimedKept(w: World, l: Label)
    requires Inv(w) && ReceivedAreClaimed(w) && Enabled(w, l)
    ensures ReceivedAreClaimed(Apply(w, l))
  {
    var v := Apply(w, l);
    if !l.act.Claim? {
      forall id ensures Matches(v.rows, id, Received) ==> Matches(w.rows, id, Received) { OnlyClaimsReceive(w, l, id); }
    }
    forall id | Matches(v.rows, id, Received) ensures Claimed(v, id) {
      if Matches(w.rows, id, Received) {
        assert Claimed(w, id);
        var c :| Claimer(w, c, id);
        ClaimerMoves(w, l, c, id);
      } else {
        NewlyReceived(w, l.caller, l.act.newId, id);
      }
    }
  }

  /** In every world of every run a received row has a claimer. */
  lemma {:induction false} EveryReceivedIsClaimed(worlds: seq<World>, labels: seq<Label>, k: nat)
    requires IsRun(worlds, labels) && k < |worlds|
    ensures ReceivedAreClaimed(worlds[k])
  {
    if k == 0 {
      assert worlds[0].rows == map[];
    } else {
      EveryReceivedIsClaimed(worlds, labels, k - 1);
      RunSound(worlds, labels, k - 1);
      assert StepAt(worlds, labels, k - 1);
      ReceivedAreClaimedKept(worlds[k - 1], labels[k - 1]);
    }
  }

  /** An answered claimer settles in one step. */
  lemma AnsweredSettles(worlds: seq<World>, labels: seq<Label>, c: CallId, id: EventId)
    returns (ws: seq<World>, ls: seq<Label>)
    requires IsRun(worlds, labels) && c in worlds[|labels|].calls && worlds[|labels|].calls[c].Answered?
    requires worlds[|labels|].calls[c].id == id
    ensures Extends(worlds, labels, ws, ls) && !Matches(ws[|ls|].rows, id, Received)
  {
    ws, ls := Extend(worlds, labels, Label(c, Settle));
  }

  /** An owner in two. */
  lemma OwnerSettles(worlds: seq<World>, labels: seq<Label>, c: CallId, id: EventId)
    returns (ws: seq<World>, ls: seq<Label>)
    requires IsRun(worlds, labels) && c in worlds[|labels|].calls && worlds[|labels|].calls[c].Owner?
    requires worlds[|labels|].calls[c].id == id
    ensures Extends(worlds, labels, ws, ls) && !Matches(ws[|ls|].rows, id, Received)
  {
    ws, ls := Extend(worlds, labels, Label(c, AskTarget(NoAction(""))));
    ws, ls := AnsweredSettles(ws, ls, c, id);
  }

  /** Some continuation settles the event. */
  ghost predicate MaySettle(worlds: seq<World>, labels: seq<Label>, id: EventId) {
    exists ws: seq<World>, ls: seq<Label> :: Extends(worlds, labels, ws, ls) && !Matches(ws[|ls|].rows, id, Received)
  }

  ghost predicate IsStranded(w: World, id: EventId) {
    exists c :: Stranded(w, c, id)
  }

  lemma UnstrandedMaySettle(worlds: seq<World>, labels: seq<Label>, id: EventId)
    requires IsRun(worlds, labels) && Matches(worlds[|labels|].rows, id, Received) && !IsStranded(worlds[|labels|], id)
    ensures MaySettle(worlds, labels, id)
  {
    var w := worlds[|labels|];
    EveryReceivedIsClaimed(worlds, labels, |labels|);
    assert Claimed(w, id);
    var c :| Claimer(w, c, id);
    assert !Stranded(w, c, id);
    var ws, ls;
    if w.calls[c].Owner? {
      ws, ls := OwnerSettles(worlds, labels, c, id);
    } else {
      ws, ls := AnsweredSettles(worlds, labels, c, id);
    }
  }

  lemma StrandedStays(worlds: seq<World>, labels: seq<Label>, ws: seq<World>, ls: seq<Label>, c: CallId, id: EventId)
    requires IsRun(worlds, labels) && Extends(worlds, labels, ws, ls) && Stranded(worlds[|labels|], c, id)
    ensures Matches(ws[|ls|].rows, id, Received)
  {
    assert ws[|labels|] == worlds[|labels|];
    StrandedForEver(ws, ls, |labels|, |ls|, c, id);
  }

  /** A received event can still be settled if and only if the call that claimed it has not ended. */
  lemma SettlesUnlessStranded(worlds: seq<World>, labels: seq<Label>, id: EventId)
    requires IsRun(worlds, labels) && Matches(worlds[|labels|].rows, id, Received)
    ensures MaySettle(worlds, labels, id) <==> !IsStranded(worlds[|labels|], id)
  {
    if IsStranded(worlds[|labels|], id) {
      var c :| Stranded(worlds[|labels|], c, id);
      forall ws: seq<World>, ls: seq<Label> | Extends(worlds, labels, ws, ls)
        ensures Matches(ws[|ls|].rows, id, Received)
      {
        StrandedStays(worlds, labels, ws, ls, c, id);
      }
    } else {
      UnstrandedMaySettle(worlds, labels, id);
    }
  }
}
