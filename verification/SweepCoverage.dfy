/** Overlapping sweeps over one table: between them they leave no due account out, and once everything
    succeeds they refresh none twice. */
module SweepCoverage {
  import opened Outcomes
  import opened Lists
  import opened CredentialStore
  import opened AccountRows
  import opened AccountLane
  import opened AccountInvariants

  /** Sweeps may begin, step, and stop anywhere; nothing else runs. */
  predicate SweepLabel(l: Label) {
    l.act.Tick? || (l.act.Begin? && l.act.first.Sweeping?) || l.act.OfSweep? || l.act.OfRefresh? || l.act.Fail?
  }

  ghost predicate IsSweepPath(worlds: seq<World>, labels: seq<Label>) {
    && IsPath(worlds, labels) && Inv(worlds[0])
    && (forall c | c in worlds[0].calls :: !Unfinished(worlds[0].calls[c]))
    && (forall i | 0 <= i < |labels| :: SweepLabel(labels[i]))
  }

  predicate HasSweep(call: Call) {
    call.Sweeping? || call.Refreshing? || call.SweepDone?
  }

  /** Accounts claimed plus accounts it may still claim: the batch size it began with. */
  function Batch(s: Sweep): nat {
    |s.attempted| + s.left
  }

  predicate SameRun(s: Sweep, t: Sweep) {
    s.kind == t.kind && s.window == t.window && Batch(s) == Batch(t)
  }

  // ---------------------------------------------------------------- the attempted list

  /** A job never lists an account twice. */
  predicate ListsOnce(call: Call) {
    HasSweep(call) && call.sweep.kind == Job ==> Distinct(call.sweep.attempted)
  }

  lemma ListsOnceNext(w: World, l: Label)
    requires Enabled(w, l) && !Callless(l.act) && (l.caller in w.calls ==> ListsOnce(w.calls[l.caller]))
    ensures ListsOnce(NextCall(w, l))
  {
  }

  /** Over any run, whatever overlaps: one job run claims each account at most once, although a skipped
      account stays due. */
  lemma {:induction false} AttemptedOnceByRun(worlds: seq<World>, labels: seq<Label>, n: nat, c: CallId)
    requires IsRun(worlds, labels) && n <= |labels| && c in worlds[n].calls
    ensures ListsOnce(worlds[n].calls[c])
  {
    if n == 0 {
    } else {
      assert StepAt(worlds, labels, n - 1);
      if c in worlds[n - 1].calls { AttemptedOnceByRun(worlds, labels, n - 1, c); }
      if c == labels[n - 1].caller && !Callless(labels[n - 1].act) { ListsOnceNext(worlds[n - 1], labels[n - 1]); }
    }
  }

  // ---------------------------------------------------------------- nobody is left out

  function InitiallyDue(w: World, window: int): set<AccountId> {
    set id | id in w.accounts && Due(w.accounts[id], w.clock, window)
  }

  predicate Among(ids: seq<AccountId>, due: set<AccountId>, a: AccountId) {
    forall id | id in ids :: id in due && id != a
  }

  /** A sweep that has claimed due accounts only, and not `a`; one that made as many claims as there were due
      accounts, none of them twice, cannot have finished. */
  predicate MissedBy(due: set<AccountId>, a: AccountId, window: int, call: Call) {
    && ListsOnce(call)
    && (HasSweep(call) ==> Among(call.sweep.attempted, due, a))
    && (call.Refreshing? ==> call.id in due && call.id != a)
    && (call.SweepDone? && Distinct(call.sweep.attempted) && call.sweep.window == window ==> Batch(call.sweep) < |due|)
    && (call.Sweeping? || call.Refreshing? || call.SweepDone? || call.Ended?)
  }

  /** Row `id` is as it was, and free. */
  predicate Untouched(w0: World, w: World, id: AccountId) {
    id in w0.accounts && id in w.accounts && w.accounts[id] == w0.accounts[id] && id !in w.locks
  }

  /** While nobody has claimed the due account `a`, it and every account that was not due stand untouched. */
  ghost predicate Missed(w0: World, w: World, window: int, a: AccountId) {
    var due := InitiallyDue(w0, window);
    && w.clock >= w0.clock && w.accounts.Keys == w0.accounts.Keys
    && (forall id | id in w.accounts && (id == a || id !in due) :: Untouched(w0, w, id))
    && (forall c | c in w.calls && c !in w0.calls :: MissedBy(due, a, window, w.calls[c]))
  }

  /** A sweep prefers `a` to any account that was not due at the start. */
  lemma OldestWasDue(w0: World, w: World, window: int, a: AccountId, s: Sweep, id: AccountId)
    requires a in InitiallyDue(w0, window) && Missed(w0, w, window, a) && a !in s.attempted && Oldest(w, s, id)
    ensures id in InitiallyDue(w0, window)
  {
    assert Untouched(w0, w, a);
    if id !in InitiallyDue(w0, window) {
      assert Untouched(w0, w, id);
      assert Claimable(w, s, a);
    }
  }

  lemma MissedNext(w0: World, w: World, l: Label, window: int, a: AccountId)
    requires a in InitiallyDue(w0, window) && Missed(w0, w, window, a) && Enabled(w, l) && SweepLabel(l) && !l.act.Tick?
    requires l.act != OfSweep(Claim(a)) && l.caller !in w0.calls
    ensures MissedBy(InitiallyDue(w0, window), a, window, NextCall(w, l))
  {
    var due := InitiallyDue(w0, window);
    ListsOnceCaller(w0, w, l.caller, window, a);
    ListsOnceNext(w, l);
    if l.act.OfSweep? {
      var s := w.calls[l.caller].sweep;
      match l.act.sweep {
        case Claim(id) => OldestWasDue(w0, w, window, a, s, id);
        case NothingToClaim =>
          assert Untouched(w0, w, a);
          assert s.window == window ==> Claimable(w, s, a);
        case BatchDone =>
          if Distinct(s.attempted) { DistinctFits(s.attempted, due, a); }
      }
    }
  }

  lemma ListsOnceCaller(w0: World, w: World, c: CallId, window: int, a: AccountId)
    requires Missed(w0, w, window, a) && c !in w0.calls
    ensures c in w.calls ==> MissedBy(InitiallyDue(w0, window), a, window, w.calls[c])
  {
  }

  /** A step that neither claims nor settles row `id` leaves it untouched. */
  lemma UntouchedKept(w0: World, w: World, l: Label, id: AccountId)
    requires Untouched(w0, w, id) && Enabled(w, l) && SweepLabel(l) && l.act != OfSweep(Claim(id))
    requires l.act.OfRefresh? ==> w.calls[l.caller].id in w.locks
    ensures Untouched(w0, Apply(w, l), id)
  {
  }

  lemma MissedRows(w0: World, w: World, l: Label, window: int, a: AccountId)
    requires LocksHold(w) && a in InitiallyDue(w0, window) && Missed(w0, w, window, a) && Enabled(w, l) && SweepLabel(l)
    requires l.act != OfSweep(Claim(a)) && (l.act.OfSweep? ==> l.caller !in w0.calls)
    ensures forall id | id in w.accounts && (id == a || id !in InitiallyDue(w0, window)) ::
      Untouched(w0, Apply(w, l), id)
  {
    if l.act.OfSweep? && l.act.sweep.Claim? {
      assert MissedBy(InitiallyDue(w0, window), a, window, w.calls[l.caller]);
      OldestWasDue(w0, w, window, a, w.calls[l.caller].sweep, l.act.sweep.id);
    }
    if l.act.OfRefresh? { assert Pinned(w, l.caller, w.calls[l.caller]); }
    forall id | id in w.accounts && (id == a || id !in InitiallyDue(w0, window))
      ensures Untouched(w0, Apply(w, l), id)
    {
      assert Untouched(w0, w, id);
      UntouchedKept(w0, w, l, id);
    }
  }

  lemma KeysKept(w: World, l: Label)
    requires LocksHold(w) && Enabled(w, l) && SweepLabel(l)
    ensures Apply(w, l).accounts.Keys == w.accounts.Keys
  {
  }

  /** The finished calls of the start take no part. */
  predicate OldOnesDone(w0: World, w: World) {
    forall c | c in w0.calls :: c in w.calls && w.calls[c] == w0.calls[c] && !Unfinished(w.calls[c])
  }

  lemma MissedKept(w0: World, w: World, l: Label, window: int, a: AccountId)
    requires LocksHold(w) && a in InitiallyDue(w0, window) && Missed(w0, w, window, a) && OldOnesDone(w0, w)
    requires Enabled(w, l) && SweepLabel(l) && l.act != OfSweep(Claim(a))
    ensures Missed(w0, Apply(w, l), window, a) && OldOnesDone(w0, Apply(w, l))
  {
    var v := Apply(w, l);
    assert l.caller in w.calls && !l.act.Tick? ==> Unfinished(w.calls[l.caller]);
    MissedRows(w0, w, l, window, a);
    KeysKept(w, l);
    if !l.act.Tick? { MissedNext(w0, w, l, window, a); }
    forall c | c in v.calls && c !in w0.calls ensures MissedBy(InitiallyDue(w0, window), a, window, v.calls[c]) {
      ListsOnceCaller(w0, w, c, window, a);
    }
  }

  ghost predicate ClaimedBefore(labels: seq<Label>, n: nat, a: AccountId)
    requires n <= |labels|
  {
    exists k :: 0 <= k < n && labels[k].act == OfSweep(Claim(a))
  }

  lemma NobodyHolds(w: World)
    requires LocksHold(w) && forall c | c in w.calls :: !Unfinished(w.calls[c])
    ensures forall id :: id !in w.locks
  {
    assert forall id | id in w.locks :: HolderRuns(w, id);
  }

  lemma {:induction false} MissedAlong(worlds: seq<World>, labels: seq<Label>, n: nat, window: int, a: AccountId)
    requires IsSweepPath(worlds, labels) && n <= |labels| && a in InitiallyDue(worlds[0], window)
    requires !ClaimedBefore(labels, n, a)
    ensures Missed(worlds[0], worlds[n], window, a) && OldOnesDone(worlds[0], worlds[n])
  {
    if n == 0 {
      NobodyHolds(worlds[0]);
    } else {
      MissedAlong(worlds, labels, n - 1, window, a);
      PathKeeps(worlds, labels, n - 1);
      assert StepAt(worlds, labels, n - 1);
      MissedKept(worlds[0], worlds[n - 1], labels[n - 1], window, a);
    }
  }

  lemma {:induction false} RunKept(worlds: seq<World>, labels: seq<Label>, i: nat, n: nat, c: CallId, s: Sweep)
    requires IsPath(worlds, labels) && i < n <= |labels| && labels[i] == Label(c, Begin(Sweeping(s)))
    ensures c in worlds[n].calls && (HasSweep(worlds[n].calls[c]) ==> SameRun(s, worlds[n].calls[c].sweep))
    ensures HasSweep(worlds[n].calls[c]) || worlds[n].calls[c].Ended?
    decreases n - i
  {
    assert StepAt(worlds, labels, n - 1);
    if i < n - 1 { RunKept(worlds, labels, i, n - 1, c, s); }
  }

  lemma {:induction false} StaysKnown(worlds: seq<World>, labels: seq<Label>, n: nat, c: CallId)
    requires IsPath(worlds, labels) && n <= |labels| && c in worlds[0].calls
    ensures c in worlds[n].calls
  {
    if n == 0 {
    } else {
      StaysKnown(worlds, labels, n - 1, c);
      assert StepAt(worlds, labels, n - 1);
    }
  }

  lemma NotBegunBefore(worlds: seq<World>, labels: seq<Label>, i: nat, c: CallId)
    requires IsPath(worlds, labels) && i < |labels| && labels[i].caller == c && labels[i].act.Begin?
    ensures c !in worlds[0].calls
  {
    assert StepAt(worlds, labels, i);
    if c in worlds[0].calls { StaysKnown(worlds, labels, i, c); }
  }

  /** A sweep that has finished although nobody attempted `a` was too short for the accounts due, or attempted
      one twice, which a job never does. */
  lemma MissedRunIsShort(worlds: seq<World>, labels: seq<Label>, i: nat, n: nat, c: CallId, kind: Kind, window: int,
                         batch: nat, a: AccountId)
    requires IsSweepPath(worlds, labels) && i < n <= |labels|
    requires labels[i] == Label(c, Begin(Sweeping(Sweep(kind, window, batch, [], NONE_YET))))
    requires a in InitiallyDue(worlds[0], window) && !ClaimedBefore(labels, n, a)
    ensures c in worlds[n].calls
    ensures worlds[n].calls[c].SweepDone? && (kind == Job || Distinct(worlds[n].calls[c].sweep.attempted)) ==>
              batch < |InitiallyDue(worlds[0], window)|
  {
    MissedAlong(worlds, labels, n, window, a);
    RunKept(worlds, labels, i, n, c, Sweep(kind, window, batch, [], NONE_YET));
    NotBegunBefore(worlds, labels, i, c);
    assert MissedBy(InitiallyDue(worlds[0], window), a, window, worlds[n].calls[c]);
  }

  /** Any number of overlapping sweeps, any of them stopping anywhere: once a single sweep that attempted no
      account twice, with a batch size of at least the number of accounts due at the start, has finished, every
      one of those accounts has been attempted, by that sweep or another. */
  lemma EveryDueAccountIsCovered(worlds: seq<World>, labels: seq<Label>, i: nat, n: nat, c: CallId, kind: Kind,
                                 window: int, batch: nat)
    requires IsSweepPath(worlds, labels) && i < n <= |labels|
    requires labels[i] == Label(c, Begin(Sweeping(Sweep(kind, window, batch, [], NONE_YET))))
    requires c in worlds[n].calls && worlds[n].calls[c].SweepDone?
    requires kind == Job || Distinct(worlds[n].calls[c].sweep.attempted)
    requires batch >= |InitiallyDue(worlds[0], window)|
    ensures forall a | a in InitiallyDue(worlds[0], window) :: ClaimedBefore(labels, n, a)
  {
    forall a | a in InitiallyDue(worlds[0], window) ensures ClaimedBefore(labels, n, a) {
      if !ClaimedBefore(labels, n, a) { MissedRunIsShort(worlds, labels, i, n, c, kind, window, batch, a); }
    }
  }

  /** A job run never attempts one twice: its batch size is all that matters. */
  lemma EveryDueAccountIsAttempted(worlds: seq<World>, labels: seq<Label>, i: nat, n: nat, c: CallId, window: int,
                                   batch: nat)
    requires IsSweepPath(worlds, labels) && i < n <= |labels|
    requires labels[i] == Label(c, Begin(Sweeping(Sweep(Job, window, batch, [], NONE_YET))))
    requires c in worlds[n].calls && worlds[n].calls[c].SweepDone?
    requires batch >= |InitiallyDue(worlds[0], window)|
    ensures forall a | a in InitiallyDue(worlds[0], window) :: ClaimedBefore(labels, n, a)
  {
    EveryDueAccountIsCovered(worlds, labels, i, n, c, Job, window, batch);
  }
}
