/** Overlapping sweeps that all succeed: each due account is refreshed exactly once between them. */
module SweepOnce {
  import opened Outcomes
  import opened CredentialStore
  import opened AccountRows
  import opened AccountLane
  import opened AccountInvariants
  import opened SweepCoverage

  /** This step puts account `id`'s successor into the store. */
  predicate RotatesFor(w: World, l: Label, id: AccountId) {
    && Enabled(w, l) && l.act.OfRefresh? && l.act.refresh.Rotate? && w.calls[l.caller].id == id
    && NextCall(w, l).Refreshing? && NextCall(w, l).phase.Stored?
  }

  function Claims(labels: seq<Label>, n: nat, id: AccountId): nat
    requires n <= |labels|
  {
    if n == 0 then 0 else Claims(labels, n - 1, id) + (if labels[n - 1].act == OfSweep(Claim(id)) then 1 else 0)
  }

  function Rotations(worlds: seq<World>, labels: seq<Label>, n: nat, id: AccountId): nat
    requires n <= |labels| < |worlds|
  {
    if n == 0 then 0
    else Rotations(worlds, labels, n - 1, id) + (if RotatesFor(worlds[n - 1], labels[n - 1], id) then 1 else 0)
  }

  /** A refresh ends only by committing a successor that lasts until the horizon. */
  predicate Succeeds(w: World, l: Label, horizon: int) {
    && Enabled(w, l)
    && (!Callless(l.act) && l.caller in w.calls && w.calls[l.caller].Refreshing? && !NextCall(w, l).Refreshing? ==>
          && l.act == OfRefresh(Settle) && w.calls[l.caller].phase.Stored?
          && w.calls[l.caller].phase.successor.expiresAt >= horizon)
  }

  predicate WindowWithin(call: Call, window: int) {
    HasSweep(call) && Unfinished(call) ==> call.sweep.window <= window
  }

  ghost predicate WindowsWithin(w: World, window: int) {
    forall c | c in w.calls :: WindowWithin(w.calls[c], window)
  }

  /** Claims and rotations of one account so far: it is being refreshed for the first time, or has been
      refreshed at most once and lasts until the horizon if it was. */
  predicate Once(w: World, id: AccountId, claims: nat, rotations: nat, horizon: int) {
    if id in w.locks then
      && w.locks[id] in w.calls && w.calls[w.locks[id]].Refreshing?
      && claims == 1 && rotations == if w.calls[w.locks[id]].phase.Stored? then 1 else 0
    else
      && claims == rotations <= 1
      && (claims == 1 ==>
            id in w.accounts && w.accounts[id].expiresAt.Some? && w.accounts[id].expiresAt.value >= horizon)
  }

  lemma OnceAfterClaim(w: World, l: Label, id: AccountId, claims: nat, rotations: nat, window: int, horizon: int)
    requires Once(w, id, claims, rotations, horizon) && Enabled(w, l) && l.act == OfSweep(Claim(id))
    requires WindowWithin(w.calls[l.caller], window) && w.clock + window <= horizon
    ensures Once(Apply(w, l), id, claims + 1, rotations, horizon) && !RotatesFor(w, l, id)
  {
  }

  lemma OnceAfterRefresh(w: World, l: Label, id: AccountId, claims: nat, rotations: nat, horizon: int)
    requires LocksHold(w) && Once(w, id, claims, rotations, horizon) && Succeeds(w, l, horizon) && l.act.OfRefresh?
    requires w.calls[l.caller].id == id
    ensures Once(Apply(w, l), id, claims, rotations + (if RotatesFor(w, l, id) then 1 else 0), horizon)
  {
    assert Pinned(w, l.caller, w.calls[l.caller]);
    match l.act.refresh {
      case ReadBundle(_, _) =>
      case Exchange(_) =>
      case Rotate(_) =>
      case Settle =>
    }
  }

  /** Another account's step. */
  lemma OnceElsewhere(w: World, l: Label, id: AccountId, claims: nat, rotations: nat, horizon: int)
    requires LocksHold(w) && Once(w, id, claims, rotations, horizon) && Succeeds(w, l, horizon) && SweepLabel(l)
    requires l.act != OfSweep(Claim(id)) && (l.act.OfRefresh? ==> w.calls[l.caller].id != id)
    ensures Once(Apply(w, l), id, claims, rotations, horizon) && !RotatesFor(w, l, id)
  {
    if l.caller in w.calls && w.calls[l.caller].Refreshing? { assert Pinned(w, l.caller, w.calls[l.caller]); }
    if id in w.locks { assert HolderRuns(w, id); }
  }

  lemma OnceNext(w: World, l: Label, id: AccountId, claims: nat, rotations: nat, window: int, horizon: int)
    requires LocksHold(w) && Once(w, id, claims, rotations, horizon) && Succeeds(w, l, horizon) && SweepLabel(l)
    requires WindowsWithin(w, window) && w.clock + window <= horizon
    ensures Once(Apply(w, l), id, claims + (if l.act == OfSweep(Claim(id)) then 1 else 0),
                 rotations + (if RotatesFor(w, l, id) then 1 else 0), horizon)
  {
    if l.act == OfSweep(Claim(id)) {
      assert WindowWithin(w.calls[l.caller], window);
      OnceAfterClaim(w, l, id, claims, rotations, window, horizon);
    } else if l.act.OfRefresh? && w.calls[l.caller].id == id {
      OnceAfterRefresh(w, l, id, claims, rotations, horizon);
    } else {
      OnceElsewhere(w, l, id, claims, rotations, horizon);
    }
  }

  predicate BeginsWithin(l: Label, window: int) {
    l.act.Begin? && l.act.first.Sweeping? ==> l.act.first.sweep.window <= window
  }

  lemma WindowsKept(w: World, l: Label, window: int)
    requires WindowsWithin(w, window) && Enabled(w, l) && SweepLabel(l) && BeginsWithin(l, window)
    ensures WindowsWithin(Apply(w, l), window)
  {
    var v := Apply(w, l);
    forall c | c in v.calls ensures WindowWithin(v.calls[c], window) {
      if c in w.calls { assert WindowWithin(w.calls[c], window); }
    }
  }

  lemma {:induction false} ClockGrows(worlds: seq<World>, labels: seq<Label>, i: nat, j: nat)
    requires IsPath(worlds, labels) && i <= j <= |labels|
    ensures worlds[i].clock <= worlds[j].clock
    decreases j - i
  {
    if i == j {
    } else {
      ClockGrows(worlds, labels, i, j - 1);
      assert StepAt(worlds, labels, j - 1);
    }
  }

  /** Every attempt succeeds, and every new expiry lies beyond the due window for the rest of the runs. */
  ghost predicate AllSucceed(worlds: seq<World>, labels: seq<Label>, window: int)
    requires IsPath(worlds, labels)
  {
    forall k | 0 <= k < |labels| :: SucceedsAt(worlds, labels, k, window)
  }

  predicate SucceedsAt(worlds: seq<World>, labels: seq<Label>, k: nat, window: int)
    requires k < |labels| < |worlds|
  {
    Succeeds(worlds[k], labels[k], worlds[|labels|].clock + window) && BeginsWithin(labels[k], window)
  }

  lemma {:induction false} WindowsAlong(worlds: seq<World>, labels: seq<Label>, n: nat, window: int)
    requires IsSweepPath(worlds, labels) && n <= |labels| && AllSucceed(worlds, labels, window)
    ensures WindowsWithin(worlds[n], window)
  {
    if n == 0 {
    } else {
      WindowsAlong(worlds, labels, n - 1, window);
      assert StepAt(worlds, labels, n - 1) && SucceedsAt(worlds, labels, n - 1, window);
      WindowsKept(worlds[n - 1], labels[n - 1], window);
    }
  }

  ghost predicate OnceAt(worlds: seq<World>, labels: seq<Label>, n: nat, id: AccountId, window: int)
    requires n <= |labels| < |worlds|
  {
    Once(worlds[n], id, Claims(labels, n, id), Rotations(worlds, labels, n, id), worlds[|labels|].clock + window)
  }

  lemma OnceOneFurther(worlds: seq<World>, labels: seq<Label>, n: nat, id: AccountId, window: int)
    requires IsSweepPath(worlds, labels) && n < |labels| && AllSucceed(worlds, labels, window)
    requires OnceAt(worlds, labels, n, id, window)
    ensures OnceAt(worlds, labels, n + 1, id, window)
  {
    PathKeeps(worlds, labels, n);
    ClockGrows(worlds, labels, n, |labels|);
    WindowsAlong(worlds, labels, n, window);
    assert StepAt(worlds, labels, n) && SucceedsAt(worlds, labels, n, window);
    OnceNext(worlds[n], labels[n], id, Claims(labels, n, id), Rotations(worlds, labels, n, id), window,
             worlds[|labels|].clock + window);
  }

  lemma {:induction false} OnceAlong(worlds: seq<World>, labels: seq<Label>, n: nat, id: AccountId, window: int)
    requires IsSweepPath(worlds, labels) && n <= |labels| && AllSucceed(worlds, labels, window)
    ensures OnceAt(worlds, labels, n, id, window)
  {
    if n == 0 {
      NobodyHolds(worlds[0]);
    } else {
      OnceAlong(worlds, labels, n - 1, id, window);
      OnceOneFurther(worlds, labels, n - 1, id, window);
    }
  }

  lemma {:induction false} ClaimedIsCounted(labels: seq<Label>, n: nat, id: AccountId)
    requires n <= |labels| && ClaimedBefore(labels, n, id)
    ensures Claims(labels, n, id) >= 1
  {
    if labels[n - 1].act != OfSweep(Claim(id)) {
      ClaimedIsCounted(labels, n - 1, id);
    }
  }

  /** When all runs have finished, one of them with room for every account due at the start, and every
      attempt succeeded for longer than they lasted: each of those accounts was claimed exactly once and
      rotated exactly once over all runs, and no account more often. */
  lemma EachDueAccountRefreshedOnce(worlds: seq<World>, labels: seq<Label>, i: nat, c: CallId, window: int, batch: nat)
    requires IsSweepPath(worlds, labels) && AllSucceed(worlds, labels, window)
    requires i < |labels| && labels[i] == Label(c, Begin(Sweeping(Sweep(Job, window, batch, [], NONE_YET))))
    requires forall d | d in worlds[|labels|].calls :: !Unfinished(worlds[|labels|].calls[d])
    requires c in worlds[|labels|].calls && worlds[|labels|].calls[c].SweepDone?
    requires batch >= |InitiallyDue(worlds[0], window)|
    ensures forall a | a in InitiallyDue(worlds[0], window) ::
      Claims(labels, |labels|, a) == 1 && Rotations(worlds, labels, |labels|, a) == 1
    ensures forall a :: Claims(labels, |labels|, a) == Rotations(worlds, labels, |labels|, a) <= 1
  {
    var n := |labels|;
    PathKeeps(worlds, labels, n);
    NobodyHolds(worlds[n]);
    forall a ensures Claims(labels, n, a) == Rotations(worlds, labels, n, a) <= 1 {
      OnceAlong(worlds, labels, n, a, window);
      assert OnceAt(worlds, labels, n, a, window);
    }
    EveryDueAccountIsAttempted(worlds, labels, i, n, c, window, batch);
    forall a | a in InitiallyDue(worlds[0], window) ensures Claims(labels, n, a) >= 1 {
      ClaimedIsCounted(labels, n, a);
    }
  }
}
