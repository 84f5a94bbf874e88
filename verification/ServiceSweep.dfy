/** The service's own sweep, which keeps no list of what it has attempted: how one stuck account can take all
    of its turns, and when it does reach every due account all the same. */
module ServiceSweep {
  import opened Outcomes
  import opened Lists
  import opened CredentialStore
  import opened AccountRows
  import opened AccountLane
  import opened AccountInvariants
  import opened SweepCoverage

  // ---------------------------------------------------------------- one account takes the batch

  /** `v` differs from `w` in call `c` alone. */
  predicate OnlyCall(w: World, v: World, c: CallId, call: Call) {
    v == w.(calls := w.calls[c := call])
  }

  function Skipped(s: Sweep, id: AccountId): Sweep
    requires s.left > 0
  {
    Sweep(s.kind, s.window, s.left - 1, s.attempted + [id], s.report.(skipped := s.report.skipped + 1))
  }

  lemma ClaimsStuck(worlds: seq<World>, labels: seq<Label>, c: CallId, s: Sweep, id: AccountId)
    returns (ws: seq<World>, ls: seq<Label>)
    requires IsPath(worlds, labels)
    requires
      var w := worlds[|labels|];
      c in w.calls && w.calls[c] == Sweeping(s) && s.kind == Service && s.left > 0 && Oldest(w, s, id)
    ensures Extends(worlds, labels, ws, ls) && ls == labels + [Label(c, OfSweep(Claim(id)))]
    ensures
      var w := worlds[|labels|];
      ws[|ls|] == w.(calls := w.calls[c := Claimed(w, s, id)], locks := w.locks[id := c])
  {
    ws, ls := Extend(worlds, labels, Label(c, OfSweep(Claim(id))));
  }

  lemma FailsToRead(worlds: seq<World>, labels: seq<Label>, c: CallId) returns (ws: seq<World>, ls: seq<Label>)
    requires IsPath(worlds, labels) && c in worlds[|labels|].calls
    requires worlds[|labels|].calls[c].Refreshing? && worlds[|labels|].calls[c].phase.Held?
    requires worlds[|labels|].calls[c].sweep.kind == Service
    ensures Extends(worlds, labels, ws, ls) && |ls| == |labels| + 1 && ls[|labels|].act.OfRefresh?
    ensures OnlyCall(worlds[|labels|], ws[|ls|], c, worlds[|labels|].calls[c].(phase := LeftDue))
  {
    ws, ls := Extend(worlds, labels, Label(c, OfRefresh(ReadBundle(Setup(false, false, None), Some(Transport)))));
  }

  lemma RollsBack(worlds: seq<World>, labels: seq<Label>, c: CallId) returns (ws: seq<World>, ls: seq<Label>)
    requires IsPath(worlds, labels) && c in worlds[|labels|].calls
    requires worlds[|labels|].calls[c].Refreshing? && worlds[|labels|].calls[c].phase == LeftDue
    ensures Extends(worlds, labels, ws, ls) && |ls| == |labels| + 1 && ls[|labels|].act.OfRefresh?
    ensures
      var (w, s) := (worlds[|labels|], worlds[|labels|].calls[c].sweep);
      var after := Sweeping(s.(report := s.report.(skipped := s.report.skipped + 1)));
      ws[|ls|] == w.(calls := w.calls[c := after], locks := w.locks - {w.calls[c].id})
  {
    ws, ls := Extend(worlds, labels, Label(c, OfRefresh(Settle)));
    var w := worlds[|labels|];
    assert SettledIn(w.accounts, w.calls[c]) == w.accounts;
  }

  /** One turn on an account whose credential cannot be read: nothing has changed but the sweep, and the same
      account is the oldest again. */
  lemma TurnIsVain(worlds: seq<World>, labels: seq<Label>, c: CallId, s: Sweep, id: AccountId)
    returns (ws: seq<World>, ls: seq<Label>)
    requires IsPath(worlds, labels)
    requires
      var w := worlds[|labels|];
      c in w.calls && w.calls[c] == Sweeping(s) && s.kind == Service && s.left > 0 && Oldest(w, s, id)
    ensures Extends(worlds, labels, ws, ls) && |ls| == |labels| + 3
    ensures ls[|labels|].act == OfSweep(Claim(id)) && ls[|labels| + 1].act.OfRefresh? && ls[|labels| + 2].act.OfRefresh?
    ensures OnlyCall(worlds[|labels|], ws[|ls|], c, Sweeping(Skipped(s, id)))
    ensures Oldest(ws[|ls|], Skipped(s, id), id)
  {
    var w := worlds[|labels|];
    ws, ls := ClaimsStuck(worlds, labels, c, s, id);
    ws, ls := FailsToRead(ws, ls, c);
    ws, ls := RollsBack(ws, ls, c);
    assert w.locks[id := c] - {id} == w.locks;
    assert ws[|ls|].calls == w.calls[c := Sweeping(Skipped(s, id))];
    StaysOldest(w, ws[|ls|], s, id);
  }

  lemma StaysOldest(w: World, v: World, s: Sweep, id: AccountId)
    requires s.kind == Service && s.left > 0 && Oldest(w, s, id)
    requires v.accounts == w.accounts && v.locks == w.locks && v.clock == w.clock
    ensures Oldest(v, Skipped(s, id), id)
  {
    forall j | j in v.accounts && Claimable(v, Skipped(s, id), j)
      ensures v.accounts[id].expiresAt.value <= v.accounts[j].expiresAt.value
    {
      assert Claimable(w, s, j);
    }
  }

  function Repeated(id: AccountId, n: nat): seq<AccountId> {
    seq(n, _ => id)
  }

  /** Claims from step `i` on are all of this account. */
  predicate ClaimsOnly(labels: seq<Label>, i: nat, id: AccountId) {
    forall k | i <= k < |labels| && labels[k].act.OfSweep? && labels[k].act.sweep.Claim? :: labels[k].act.sweep.id == id
  }

  /** What the account's sweep does with all the turns it has left. */
  lemma {:induction false} TurnsAreVain(worlds: seq<World>, labels: seq<Label>, c: CallId, s: Sweep, id: AccountId)
    returns (ws: seq<World>, ls: seq<Label>)
    requires IsPath(worlds, labels)
    requires
      var w := worlds[|labels|];
      c in w.calls && w.calls[c] == Sweeping(s) && s.kind == Service && Oldest(w, s, id)
    ensures Extends(worlds, labels, ws, ls) && ClaimsOnly(ls, |labels|, id) && SweepLabelsFrom(ls, |labels|)
    ensures
      var report := s.report.(skipped := s.report.skipped + s.left);
      var spent := Sweep(Service, s.window, 0, s.attempted + Repeated(id, s.left), report);
      OnlyCall(worlds[|labels|], ws[|ls|], c, Sweeping(spent))
    decreases s.left
  {
    var w := worlds[|labels|];
    if s.left == 0 {
      ws, ls := worlds, labels;
      assert s.attempted + Repeated(id, 0) == s.attempted;
      assert w.calls[c := Sweeping(s)] == w.calls;
    } else {
      var ws1, ls1 := TurnIsVain(worlds, labels, c, s, id);
      ws, ls := TurnsAreVain(ws1, ls1, c, Skipped(s, id), id);
      JoinsClaims(labels, ls1, ls, id);
      assert s.attempted + [id] + Repeated(id, s.left - 1) == s.attempted + Repeated(id, s.left);
    }
  }

  ghost predicate SweepLabelsFrom(labels: seq<Label>, i: nat) {
    forall k | i <= k < |labels| :: SweepLabel(labels[k])
  }

  lemma JoinsClaims(labels: seq<Label>, ls1: seq<Label>, ls: seq<Label>, id: AccountId)
    requires labels <= ls1 <= ls && |ls1| == |labels| + 3
    requires ls1[|labels|].act == OfSweep(Claim(id))
    requires ls1[|labels| + 1].act.OfRefresh? && ls1[|labels| + 2].act.OfRefresh?
    requires ClaimsOnly(ls, |ls1|, id) && SweepLabelsFrom(ls, |ls1|)
    ensures ClaimsOnly(ls, |labels|, id) && SweepLabelsFrom(ls, |labels|)
  {
    assert forall k | |labels| <= k < |ls1| :: ls[k] == ls1[k];
  }

  /** Whatever is due, and however large the batch: from any world in which a service sweep stands before its
      claims, there is a path on which it attempts its oldest account in every turn, and no other account at
      all, and finishes. */
  lemma OneAccountTakesTheBatch(worlds: seq<World>, labels: seq<Label>, c: CallId, window: int, batch: nat,
                                id: AccountId)
    returns (ws: seq<World>, ls: seq<Label>)
    requires IsPath(worlds, labels) && c in worlds[|labels|].calls
    requires worlds[|labels|].calls[c] == Sweeping(Sweep(Service, window, batch, [], NONE_YET))
    requires Oldest(worlds[|labels|], Sweep(Service, window, batch, [], NONE_YET), id)
    ensures Extends(worlds, labels, ws, ls) && ClaimsOnly(ls, |labels|, id) && SweepLabelsFrom(ls, |labels|)
    ensures
      var spent := Sweep(Service, window, 0, Repeated(id, batch), NONE_YET.(skipped := batch));
      OnlyCall(worlds[|labels|], ws[|ls|], c, SweepDone(spent))
  {
    var s := Sweep(Service, window, batch, [], NONE_YET);
    ws, ls := TurnsAreVain(worlds, labels, c, s, id);
    ws, ls := Extend(ws, ls, Label(c, OfSweep(BatchDone)));
    assert [] + Repeated(id, batch) == Repeated(id, batch);
  }

  // ---------------------------------------------------------------- when a service sweep covers

  /** None of the accounts this sweep has attempted is due now. */
  predicate AttemptsLast(w: World, c: CallId) {
    c in w.calls && w.calls[c].Sweeping? ==>
      forall id | id in w.calls[c].sweep.attempted && id in w.accounts ::
        !Due(w.accounts[id], w.clock, w.calls[c].sweep.window)
  }

  /** No attempt of the sweep leaves its account due when the sweep comes to claim again. */
  ghost predicate NoAttemptLeftDue(worlds: seq<World>, n: nat, c: CallId)
    requires n <= |worlds|
  {
    forall k | 0 <= k < n :: AttemptsLast(worlds[k], c)
  }

  predicate TriesOnce(call: Call) {
    HasSweep(call) ==> Distinct(call.sweep.attempted)
  }

  lemma TriesOnceNext(w: World, l: Label)
    requires Enabled(w, l) && !Callless(l.act) && AttemptsLast(w, l.caller)
    requires l.caller in w.calls ==> TriesOnce(w.calls[l.caller])
    ensures TriesOnce(NextCall(w, l))
  {
  }

  /** Such a sweep, of either kind, attempts no account twice. */
  lemma {:induction false} LastingAttemptsAreOnce(worlds: seq<World>, labels: seq<Label>, i: nat, n: nat, c: CallId,
                                                  s: Sweep)
    requires IsPath(worlds, labels) && i < n <= |labels| && labels[i] == Label(c, Begin(Sweeping(s)))
    requires NoAttemptLeftDue(worlds, n, c)
    ensures c in worlds[n].calls && TriesOnce(worlds[n].calls[c])
    decreases n - i
  {
    assert StepAt(worlds, labels, n - 1) && AttemptsLast(worlds[n - 1], c);
    if i < n - 1 {
      LastingAttemptsAreOnce(worlds, labels, i, n - 1, c, s);
    }
    if c == labels[n - 1].caller && !Callless(labels[n - 1].act) { TriesOnceNext(worlds[n - 1], labels[n - 1]); }
  }

  /** So a service sweep reaches what a job run would: with room for every account due at the start, and no
      attempt of its own leaving an account due, its end means that each of them has been attempted, whatever
      other sweeps overlap it. */
  lemma ServiceSweepCovers(worlds: seq<World>, labels: seq<Label>, i: nat, n: nat, c: CallId, window: int, batch: nat)
    requires IsSweepPath(worlds, labels) && i < n <= |labels|
    requires labels[i] == Label(c, Begin(Sweeping(Sweep(Service, window, batch, [], NONE_YET))))
    requires c in worlds[n].calls && worlds[n].calls[c].SweepDone?
    requires batch >= |InitiallyDue(worlds[0], window)| && NoAttemptLeftDue(worlds, n, c)
    ensures forall a | a in InitiallyDue(worlds[0], window) :: ClaimedBefore(labels, n, a)
  {
    LastingAttemptsAreOnce(worlds, labels, i, n, c, Sweep(Service, window, batch, [], NONE_YET));
    EveryDueAccountIsCovered(worlds, labels, i, n, c, Service, window, batch);
  }

  /** Had only sweeps run since step `b`, and had no attempt of this one left its account due, everybody due then
      has been claimed by now. */
  ghost predicate CoversUnlessLeftDue(worlds: seq<World>, labels: seq<Label>, b: nat, c: CallId, window: int,
                                         batch: nat)
    requires b <= |labels| && |worlds| == |labels| + 1
  {
    IsSweepPath(worlds[b..], labels[b..]) && batch >= |InitiallyDue(worlds[b], window)|
    && NoAttemptLeftDue(worlds[b..], |labels| - b, c) ==>
      forall a | a in InitiallyDue(worlds[b], window) :: ClaimedBefore(labels[b..], |labels| - b, a)
  }

  /** A service sweep that has begun at step `b` and is done by now. */
  lemma FinishedSweepCovers(worlds: seq<World>, labels: seq<Label>, b: nat, c: CallId, window: int, batch: nat)
    requires |worlds| == |labels| + 1 && b < |labels|
    requires labels[b] == Label(c, Begin(Sweeping(Sweep(Service, window, batch, [], NONE_YET))))
    requires c in worlds[|labels|].calls && worlds[|labels|].calls[c].SweepDone?
    ensures CoversUnlessLeftDue(worlds, labels, b, c, window, batch)
  {
    var (ws, ls) := (worlds[b..], labels[b..]);
    if IsSweepPath(ws, ls) && batch >= |InitiallyDue(worlds[b], window)| && NoAttemptLeftDue(ws, |ls|, c) {
      ServiceSweepCovers(ws, ls, 0, |ls|, c, window, batch);
    }
  }
}
