/** One job run: what its report adds up to whatever else runs, and whom it attempts when nothing else does. */
module SweepAlone {
  import opened Outcomes
  import opened Lists
  import opened CredentialStore
  import opened AccountRows
  import opened AccountLane
  import opened AccountInvariants
  import opened SweepCoverage

  // ---------------------------------------------------------------- the report

  function Total(r: Report): nat {
    r.refreshed + r.resynced + r.expired + r.skipped
  }

  /** Every attempt is counted once it is over; the job never resyncs. */
  predicate ReportHolds(call: Call) {
    HasSweep(call) ==>
      && Total(call.sweep.report) + (if call.Refreshing? then 1 else 0) == |call.sweep.attempted|
      && (call.sweep.kind == Job ==> call.sweep.report.resynced == 0 && (call.Refreshing? ==> !call.phase.Stale?))
  }

  lemma ReportAfterSettle(w: World, call: Call)
    requires call.Refreshing? && Terminal(call.phase) && ReportHolds(call)
    ensures ReportHolds(Sweeping(call.sweep.(report := Counted(call.sweep.report, PhaseSettled(w, call)))))
  {
    match call.phase {
      case LeftDue =>
      case Stale(_) =>
      case Dying(_) =>
      case Stored(_, _) =>
    }
  }

  lemma ReportAfterRefresh(w: World, call: Call, a: RefreshAct)
    requires RefreshReady(call, a) && ReportHolds(call)
    ensures ReportHolds(RefreshNext(w, call, a))
  {
    match a {
      case ReadBundle(_, _) =>
      case Exchange(_) =>
      case Rotate(_) =>
      case Settle => ReportAfterSettle(w, call);
    }
  }

  lemma ReportHoldsNext(w: World, l: Label)
    requires Enabled(w, l) && !Callless(l.act) && (l.caller in w.calls ==> ReportHolds(w.calls[l.caller]))
    ensures ReportHolds(NextCall(w, l))
  {
    if l.act.OfRefresh? { ReportAfterRefresh(w, w.calls[l.caller], l.act.refresh); }
  }

  /** Over any run, whatever overlaps: refreshed, expired and skipped add up to the accounts attempted. */
  lemma {:induction false} ReportAddsUp(worlds: seq<World>, labels: seq<Label>, n: nat, c: CallId)
    requires IsRun(worlds, labels) && n <= |labels| && c in worlds[n].calls
    ensures ReportHolds(worlds[n].calls[c])
  {
    if n == 0 {
    } else {
      assert StepAt(worlds, labels, n - 1);
      if c in worlds[n - 1].calls { ReportAddsUp(worlds, labels, n - 1, c); }
      if c == labels[n - 1].caller && !Callless(labels[n - 1].act) { ReportHoldsNext(worlds[n - 1], labels[n - 1]); }
    }
  }

  // ---------------------------------------------------------------- alone

  function Expiry(w: World, id: AccountId): int
    requires id in w.accounts && w.accounts[id].expiresAt.Some?
  {
    w.accounts[id].expiresAt.value
  }

  /** The attempted accounts come first in the order of expiry among those due, and in that order. */
  predicate OldestFirst(w0: World, window: int, ids: seq<AccountId>) {
    && (forall i | 0 <= i < |ids| :: ids[i] in InitiallyDue(w0, window))
    && (forall i, j | 0 <= i < j < |ids| :: Expiry(w0, ids[i]) <= Expiry(w0, ids[j]))
    && (forall i, id | 0 <= i < |ids| && id in InitiallyDue(w0, window) && id !in ids ::
          Expiry(w0, ids[i]) <= Expiry(w0, id))
  }

  predicate RowsWait(w0: World, w: World, attempted: seq<AccountId>) {
    && w.clock == w0.clock && w.accounts.Keys == w0.accounts.Keys
    && forall id | id in w.accounts && id !in attempted :: w.accounts[id] == w0.accounts[id]
  }

  /** A lone job run under way since `w0`. */
  predicate Underway(w0: World, w: World, c: CallId, window: int) {
    c in w.calls && HasSweep(w.calls[c]) ==>
      && w.calls[c].sweep.kind == Job && w.calls[c].sweep.window == window
      && RowsWait(w0, w, w.calls[c].sweep.attempted)
      && OldestFirst(w0, window, w.calls[c].sweep.attempted) && Distinct(w.calls[c].sweep.attempted)
      && (forall id | id in w.locks :: w.calls[c].Refreshing? && id == w.calls[c].id)
      && (w.calls[c].Refreshing? ==> w.calls[c].id in w.calls[c].sweep.attempted)
      && (w.calls[c].SweepDone? && w.calls[c].sweep.left > 0 ==>
            forall id | id in InitiallyDue(w0, window) :: id in w.calls[c].sweep.attempted)
  }

  lemma AppendOldest(w0: World, window: int, ids: seq<AccountId>, id: AccountId)
    requires OldestFirst(w0, window, ids) && id in InitiallyDue(w0, window) && id !in ids
    requires forall j | j in InitiallyDue(w0, window) && j !in ids :: Expiry(w0, id) <= Expiry(w0, j)
    ensures OldestFirst(w0, window, ids + [id])
  {
  }

  lemma OldestNext(w0: World, w: World, s: Sweep, id: AccountId)
    requires RowsWait(w0, w, s.attempted) && OldestFirst(w0, s.window, s.attempted) && s.kind == Job && w.locks == map[]
    requires Oldest(w, s, id)
    ensures OldestFirst(w0, s.window, s.attempted + [id])
  {
    forall j | j in InitiallyDue(w0, s.window) && j !in s.attempted ensures Expiry(w0, id) <= Expiry(w0, j) {
      assert Claimable(w, s, j);
    }
    AppendOldest(w0, s.window, s.attempted, id);
  }

  lemma UnderwayClaim(w0: World, w: World, c: CallId, window: int, id: AccountId)
    requires Underway(w0, w, c, window) && Enabled(w, Label(c, OfSweep(Claim(id))))
    ensures Underway(w0, Apply(w, Label(c, OfSweep(Claim(id)))), c, window)
  {
    assert w.locks.Keys == {};
    OldestNext(w0, w, w.calls[c].sweep, id);
  }

  lemma UnderwayDone(w0: World, w: World, c: CallId, window: int, a: SweepAct)
    requires Underway(w0, w, c, window) && Enabled(w, Label(c, OfSweep(a))) && !a.Claim?
    ensures Underway(w0, Apply(w, Label(c, OfSweep(a))), c, window)
  {
    if a.NothingToClaim? {
      forall id | id in InitiallyDue(w0, window) ensures id in w.calls[c].sweep.attempted {
        assert !Claimable(w, w.calls[c].sweep, id);
      }
    }
  }

  lemma UnderwayRefresh(w0: World, w: World, c: CallId, window: int, a: RefreshAct)
    requires LocksHold(w) && Underway(w0, w, c, window) && Enabled(w, Label(c, OfRefresh(a)))
    ensures Underway(w0, Apply(w, Label(c, OfRefresh(a))), c, window)
  {
    assert Pinned(w, c, w.calls[c]);
    match a {
      case ReadBundle(_, _) =>
      case Exchange(_) =>
      case Rotate(_) =>
      case Settle =>
    }
  }

  /** From step `i` on nothing happens but call `c`, and the clock stands still. */
  predicate OnlySteps(labels: seq<Label>, i: nat, c: CallId) {
    forall k | i <= k < |labels| :: labels[k].caller == c && !Callless(labels[k].act)
  }

  predicate LoneRun(worlds: seq<World>, labels: seq<Label>, i: nat, c: CallId, window: int, batch: nat)
  {
    && i < |labels| < |worlds| && worlds[i].locks == map[]
    && labels[i] == Label(c, Begin(Sweeping(Sweep(Job, window, batch, [], NONE_YET))))
    && OnlySteps(labels, i, c)
  }

  lemma UnderwayStep(w0: World, w: World, l: Label, window: int)
    requires LocksHold(w) && Underway(w0, w, l.caller, window) && Enabled(w, l) && l.caller in w.calls
    requires !Callless(l.act)
    requires HasSweep(w.calls[l.caller]) || w.calls[l.caller].Ended?
    ensures Underway(w0, Apply(w, l), l.caller, window)
  {
    if l.act.OfRefresh? {
      UnderwayRefresh(w0, w, l.caller, window, l.act.refresh);
    } else if l.act.OfSweep? && l.act.sweep.Claim? {
      UnderwayClaim(w0, w, l.caller, window, l.act.sweep.id);
    } else if l.act.OfSweep? {
      UnderwayDone(w0, w, l.caller, window, l.act.sweep);
    }
  }

  lemma {:induction false} UnderwayAlong(worlds: seq<World>, labels: seq<Label>, i: nat, n: nat, c: CallId,
                                         window: int, batch: nat)
    requires IsPath(worlds, labels) && Inv(worlds[0]) && LoneRun(worlds, labels, i, c, window, batch)
    requires i < n <= |labels|
    ensures Underway(worlds[i], worlds[n], c, window)
    decreases n - i
  {
    assert StepAt(worlds, labels, n - 1);
    if i < n - 1 {
      UnderwayAlong(worlds, labels, i, n - 1, c, window, batch);
      PathKeeps(worlds, labels, n - 1);
      RunKept(worlds, labels, i, n - 1, c, Sweep(Job, window, batch, [], NONE_YET));
      UnderwayStep(worlds[i], worlds[n - 1], labels[n - 1], window);
    }
  }

  function Min(a: nat, b: nat): nat {
    if a < b then a else b
  }

  /** Exactly the first min(batch, n) of the n due accounts, in the order of expiry, none twice, all reported. */
  predicate TookOldest(w0: World, window: int, batch: nat, s: Sweep) {
    && Distinct(s.attempted) && OldestFirst(w0, window, s.attempted)
    && |s.attempted| == Min(batch, |InitiallyDue(w0, window)|)
    && s.report.refreshed + s.report.expired + s.report.skipped == |s.attempted|
  }

  lemma DoneTookAll(w0: World, w: World, c: CallId, window: int, batch: nat)
    requires Underway(w0, w, c, window) && c in w.calls && w.calls[c].SweepDone?
    requires Batch(w.calls[c].sweep) == batch
    ensures |w.calls[c].sweep.attempted| == Min(batch, |InitiallyDue(w0, window)|)
  {
    var s := w.calls[c].sweep;
    DistinctSize(s.attempted);
    SubsetSize(AsSet(s.attempted), InitiallyDue(w0, window));
    if s.left > 0 { assert AsSet(s.attempted) == InitiallyDue(w0, window); }
  }

  /** With no other writer and a fixed clock a finished job run took exactly the oldest due accounts its
      batch allowed, each once, although the skipped ones stayed due, and reported every one. */
  lemma LoneRunTakesOldest(worlds: seq<World>, labels: seq<Label>, i: nat, c: CallId, window: int, batch: nat)
    requires IsRun(worlds, labels) && LoneRun(worlds, labels, i, c, window, batch)
    requires c in worlds[|labels|].calls && worlds[|labels|].calls[c].SweepDone?
    ensures TookOldest(worlds[i], window, batch, worlds[|labels|].calls[c].sweep)
  {
    var n := |labels|;
    InitiallyHolds(worlds[0]);
    UnderwayAlong(worlds, labels, i, n, c, window, batch);
    RunKept(worlds, labels, i, n, c, Sweep(Job, window, batch, [], NONE_YET));
    ReportAddsUp(worlds, labels, n, c);
    DoneTookAll(worlds[i], worlds[n], c, window, batch);
  }

  /** Every job sweep was begun, with nothing attempted and its whole batch ahead. */
  lemma {:induction false} BegunAt(worlds: seq<World>, labels: seq<Label>, n: nat, c: CallId) returns (i: nat)
    requires IsRun(worlds, labels) && n <= |labels| && c in worlds[n].calls
    requires HasSweep(worlds[n].calls[c]) && worlds[n].calls[c].sweep.kind == Job
    ensures
      var s := worlds[n].calls[c].sweep;
      i < n && labels[i] == Label(c, Begin(Sweeping(Sweep(Job, s.window, Batch(s), [], NONE_YET))))
  {
    assert n > 0;
    assert StepAt(worlds, labels, n - 1);
    if c in worlds[n - 1].calls {
      i := BegunAt(worlds, labels, n - 1, c);
    } else {
      i := n - 1;
    }
  }

  /** This run's beginning; had it been alone since, it would have taken exactly the oldest. */
  ghost predicate ExactIfAlone(worlds: seq<World>, labels: seq<Label>, c: CallId, window: int, batch: nat, s: Sweep)
    requires |labels| < |worlds|
  {
    exists i :: 0 <= i < |labels|
      && labels[i] == Label(c, Begin(Sweeping(Sweep(Job, window, batch, [], NONE_YET))))
      && (LoneRun(worlds, labels, i, c, window, batch) ==> TookOldest(worlds[i], window, batch, s))
  }

  lemma FinishedRunIsExact(worlds: seq<World>, labels: seq<Label>, c: CallId)
    requires IsRun(worlds, labels) && c in worlds[|labels|].calls
    requires worlds[|labels|].calls[c].SweepDone? && worlds[|labels|].calls[c].sweep.kind == Job
    ensures
      var s := worlds[|labels|].calls[c].sweep;
      ExactIfAlone(worlds, labels, c, s.window, Batch(s), s)
  {
    var s := worlds[|labels|].calls[c].sweep;
    var i := BegunAt(worlds, labels, |labels|, c);
    if LoneRun(worlds, labels, i, c, s.window, Batch(s)) {
      LoneRunTakesOldest(worlds, labels, i, c, s.window, Batch(s));
    }
  }
}
