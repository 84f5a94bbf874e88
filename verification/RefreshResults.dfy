/** What refreshes do to the store and its mirror: the refresh token that is never lost, and the expiry
    that the row and the store agree on at every commit. */
module RefreshResults {
  import opened Outcomes
  import opened CredentialStore
  import opened AccountRows
  import opened AccountLane
  import opened AccountInvariants

  // ---------------------------------------------------------------- a refresh between two steps

  /** A successor always carries a refresh token, and expires after the clock reading it was dated by,
      which was taken while the row was held. */
  predicate PhaseSound(clock: int, call: Call) {
    call.Refreshing? ==>
      && call.began <= clock
      && match call.phase
         case HasBundle(b, sentAt) => b.refreshToken.Some? && call.began <= sentAt <= clock
         case Successor(b, reading) => b.refreshToken.Some? && b.expiresAt > reading && call.began <= reading <= clock
         case Stored(b, reading) => b.refreshToken.Some? && b.expiresAt > reading && call.began <= reading <= clock
         case _ => true
  }

  ghost predicate PhasesSound(w: World) {
    forall c | c in w.calls :: PhaseSound(w.clock, w.calls[c])
  }

  lemma PhaseSoundNext(w: World, c: CallId, a: RefreshAct)
    requires Enabled(w, Label(c, OfRefresh(a))) && PhaseSound(w.clock, w.calls[c])
    ensures PhaseSound(w.clock, RefreshNext(w, w.calls[c], a))
  {
    var call := w.calls[c];
    match a {
      case ReadBundle(_, _) =>
      case Exchange(answer) =>
      case Rotate(_) =>
      case Settle =>
    }
  }

  lemma PhasesSoundKept(w: World, l: Label)
    requires PhasesSound(w) && Enabled(w, l)
    ensures PhasesSound(Apply(w, l))
  {
    var v := Apply(w, l);
    forall c | c in v.calls ensures PhaseSound(v.clock, v.calls[c]) {
      if c in w.calls { assert PhaseSound(w.clock, w.calls[c]); }
      if c == l.caller && l.act.OfRefresh? { PhaseSoundNext(w, c, l.act.refresh); }
    }
  }

  // ---------------------------------------------------------------- paths of refreshes

  /** From here on only refreshes write the store. */
  ghost predicate OnlyRefreshesWrite(worlds: seq<World>, labels: seq<Label>)
    requires IsPath(worlds, labels)
  {
    forall i | 0 <= i < |labels| :: WrittenByRefresh(worlds, labels, i)
  }

  ghost predicate WrittenByRefresh(worlds: seq<World>, labels: seq<Label>, i: nat)
    requires IsPath(worlds, labels) && i < |labels|
  {
    assert StepAt(worlds, labels, i);
    StoreWrite(worlds[i], labels[i]).Some? ==> labels[i].act.OfRefresh?
  }

  predicate NobodyRefreshing(w: World) {
    forall c | c in w.calls :: !w.calls[c].Refreshing?
  }

  predicate Renewable(store: map<Scope, Entry>, s: Scope) {
    EntryAt(store, s).Live? && EntryAt(store, s).credential.refreshToken.Some?
  }

  function ScopeOfCall(w: World, call: Call): Scope
    requires call.Refreshing?
  {
    ScopeOf(w, call.provider, call.accountRef)
  }

  /** A refresh of scope `s` that is not about to expire its account for want of a refresh token. */
  predicate NotTokenless(w: World, s: Scope, call: Call) {
    call.Refreshing? && ScopeOfCall(w, call) == s ==> call.phase != Dying(NoRefreshToken)
  }

  ghost predicate NobodyTokenless(w: World, s: Scope) {
    forall c | c in w.calls :: NotTokenless(w, s, w.calls[c])
  }

  lemma RotationRenews(w: World, l: Label, s: Scope)
    requires PhasesSound(w) && Enabled(w, l) && Renewable(w.store, s)
    requires StoreWrite(w, l).Some? ==> l.act.OfRefresh?
    ensures Renewable(Apply(w, l).store, s)
  {
    if l.act.OfRefresh? { assert PhaseSound(w.clock, w.calls[l.caller]); }
  }

  lemma TokenlessNext(w: World, l: Label, s: Scope)
    requires Enabled(w, l) && Renewable(w.store, s) && NobodyTokenless(w, s)
    ensures NobodyTokenless(Apply(w, l), s)
  {
    var v := Apply(w, l);
    forall c | c in v.calls ensures NotTokenless(v, s, v.calls[c]) {
      if c in w.calls { assert NotTokenless(w, s, w.calls[c]); }
      if c == l.caller && l.act.OfRefresh? { ReadRenewable(w, c, l.act.refresh, s); }
    }
  }

  lemma ReadRenewable(w: World, c: CallId, a: RefreshAct, s: Scope)
    requires Enabled(w, Label(c, OfRefresh(a))) && Renewable(w.store, s) && NotTokenless(w, s, w.calls[c])
    ensures NotTokenless(w, s, RefreshNext(w, w.calls[c], a))
  {
    match a {
      case ReadBundle(_, _) =>
      case Exchange(_) =>
      case Rotate(_) =>
      case Settle =>
    }
  }

  /** Once a scope's live credential carries a refresh token, every later one does, through any refreshes
      of any accounts: and none of them expires its account for lack of one. */
  lemma {:induction false} RefreshTokenIsNeverLost(worlds: seq<World>, labels: seq<Label>, s: Scope, n: nat)
    requires IsPath(worlds, labels) && n <= |labels| && OnlyRefreshesWrite(worlds, labels)
    requires NobodyRefreshing(worlds[0]) && Renewable(worlds[0].store, s)
    ensures PhasesSound(worlds[n]) && Renewable(worlds[n].store, s) && NobodyTokenless(worlds[n], s)
  {
    if n == 0 {
    } else {
      RefreshTokenIsNeverLost(worlds, labels, s, n - 1);
      assert StepAt(worlds, labels, n - 1) && WrittenByRefresh(worlds, labels, n - 1);
      PhasesSoundKept(worlds[n - 1], labels[n - 1]);
      RotationRenews(worlds[n - 1], labels[n - 1], s);
      TokenlessNext(worlds[n - 1], labels[n - 1], s);
    }
  }

  // ---------------------------------------------------------------- the mirror

  /** One account per scope: whoever composes the service keeps it so. */
  ghost predicate OneAccountPerScope(w: World) {
    forall i, j | i in w.accounts && j in w.accounts
                  && SameAccount(w.accounts[i], w.accounts[j].provider, w.accounts[j].accountRef) :: i == j
  }

  /** What a refresh knows of its scope's credential while it holds the row. */
  predicate KnowsEntry(entry: Entry, p: Phase) {
    match p
    case HasBundle(b, _) => entry == Live(b)
    case Successor(_, _) => entry.Live?
    case Stored(b, _) => entry == Live(b)
    case Stale(e) => entry.Live? && entry.credential.expiresAt == e
    case _ => true
  }

  predicate CallKnows(w: World, call: Call) {
    call.Refreshing? ==> KnowsEntry(EntryAt(w.store, ScopeOfCall(w, call)), call.phase)
  }

  ghost predicate AllKnow(w: World) {
    forall c | c in w.calls :: CallKnows(w, w.calls[c])
  }

  lemma ScopesApart(w: World, c: CallId, d: CallId)
    requires LocksHold(w) && OneAccountPerScope(w) && c in w.calls && d in w.calls && c != d
    requires w.calls[c].Refreshing? && w.calls[d].Refreshing?
    ensures ScopeOfCall(w, w.calls[c]) != ScopeOfCall(w, w.calls[d])
  {
    assert Pinned(w, c, w.calls[c]) && Pinned(w, d, w.calls[d]);
  }

  lemma OwnKnows(w: World, c: CallId, a: RefreshAct)
    requires Enabled(w, Label(c, OfRefresh(a))) && CallKnows(w, w.calls[c])
    ensures CallKnows(Apply(w, Label(c, OfRefresh(a))), RefreshNext(w, w.calls[c], a))
  {
    match a {
      case ReadBundle(_, _) =>
      case Exchange(_) =>
      case Rotate(_) =>
      case Settle =>
    }
  }

  lemma OtherKnows(w: World, l: Label, d: CallId)
    requires LocksHold(w) && OneAccountPerScope(w) && Enabled(w, l) && d in w.calls && d != l.caller
    requires CallKnows(w, w.calls[d])
    requires StoreWrite(w, l).Some? ==> l.act.OfRefresh?
    ensures CallKnows(Apply(w, l), w.calls[d])
  {
    if w.calls[d].Refreshing? && l.act.OfRefresh? { ScopesApart(w, l.caller, d); }
  }

  lemma AllKnowKept(w: World, l: Label)
    requires LocksHold(w) && OneAccountPerScope(w) && AllKnow(w) && Enabled(w, l)
    requires StoreWrite(w, l).Some? ==> l.act.OfRefresh?
    ensures AllKnow(Apply(w, l))
  {
    var v := Apply(w, l);
    forall d | d in v.calls ensures CallKnows(v, v.calls[d]) {
      if d in w.calls { assert CallKnows(w, w.calls[d]); }
      if d in w.calls && d != l.caller {
        OtherKnows(w, l, d);
      } else if l.act.OfRefresh? {
        OwnKnows(w, d, l.act.refresh);
      }
    }
  }

  lemma {:induction false} RefreshesKnow(worlds: seq<World>, labels: seq<Label>, n: nat)
    requires IsPath(worlds, labels) && n <= |labels| && OnlyRefreshesWrite(worlds, labels)
    requires Inv(worlds[0]) && NobodyRefreshing(worlds[0])
    requires forall i | 0 <= i <= |labels| :: OneAccountPerScope(worlds[i])
    ensures AllKnow(worlds[n]) && Inv(worlds[n])
  {
    PathKeeps(worlds, labels, n);
    if n == 0 {
    } else {
      RefreshesKnow(worlds, labels, n - 1);
      assert StepAt(worlds, labels, n - 1) && WrittenByRefresh(worlds, labels, n - 1);
      AllKnowKept(worlds[n - 1], labels[n - 1]);
    }
  }

  /** The row's expiry is the store's. */
  predicate Mirrors(w: World, id: AccountId) {
    && id in w.accounts && w.accounts[id].expiresAt.Some?
    && var entry := EntryAt(w.store, ScopeOf(w, w.accounts[id].provider, w.accounts[id].accountRef));
       entry.Live? && entry.credential.expiresAt == w.accounts[id].expiresAt.value
  }

  lemma SettleMirrors(w: World, c: CallId)
    requires LocksHold(w) && AllKnow(w) && Enabled(w, Label(c, OfRefresh(Settle)))
    requires w.calls[c].phase.Stored? || w.calls[c].phase.Stale?
    ensures Mirrors(Apply(w, Label(c, OfRefresh(Settle))), w.calls[c].id)
  {
    assert Pinned(w, c, w.calls[c]) && CallKnows(w, w.calls[c]);
  }

  /** While refreshes alone write the store, and an account has its scope to itself, every refresh that
      commits as refreshed or resynced leaves the row's expiry equal to the live credential's. */
  lemma EveryCommitMirrors(worlds: seq<World>, labels: seq<Label>, i: nat)
    requires IsPath(worlds, labels) && i < |labels| && OnlyRefreshesWrite(worlds, labels)
    requires Inv(worlds[0]) && NobodyRefreshing(worlds[0])
    requires forall k | 0 <= k <= |labels| :: OneAccountPerScope(worlds[k])
    requires labels[i].act == OfRefresh(Settle) && labels[i].caller in worlds[i].calls
    ensures
      var call := worlds[i].calls[labels[i].caller];
      call.Refreshing? && (call.phase.Stored? || call.phase.Stale? ==> Mirrors(worlds[i + 1], call.id))
  {
    RefreshesKnow(worlds, labels, i);
    assert StepAt(worlds, labels, i);
    var call := worlds[i].calls[labels[i].caller];
    if call.phase.Stored? || call.phase.Stale? { SettleMirrors(worlds[i], labels[i].caller); }
  }

  // ---------------------------------------------------------------- successors over any run

  lemma {:induction false} PhasesSoundOverRun(worlds: seq<World>, labels: seq<Label>, n: nat)
    requires IsRun(worlds, labels) && n <= |labels|
    ensures PhasesSound(worlds[n])
  {
    if n == 0 {
    } else {
      PhasesSoundOverRun(worlds, labels, n - 1);
      assert StepAt(worlds, labels, n - 1);
      PhasesSoundKept(worlds[n - 1], labels[n - 1]);
    }
  }

  /** Whatever else runs: what a refresh puts into the store carries a refresh token and outlives the
      clock reading it was dated by, a reading no older than the claim. */
  lemma SuccessorsAreSound(worlds: seq<World>, labels: seq<Label>, i: nat)
    requires IsRun(worlds, labels) && i < |labels| && labels[i].act.OfRefresh? && labels[i].act.refresh.Rotate?
    ensures Enabled(worlds[i], labels[i])
    ensures
      var w, call := worlds[i], worlds[i].calls[labels[i].caller];
      && call.began <= call.phase.reading <= w.clock
      && call.phase.successor.refreshToken.Some? && call.phase.successor.expiresAt > call.phase.reading
      && forall s ::
        || EntryAt(worlds[i + 1].store, s) == EntryAt(w.store, s)
        || EntryAt(worlds[i + 1].store, s) == Live(call.phase.successor)
  {
    PhasesSoundOverRun(worlds, labels, i);
    assert StepAt(worlds, labels, i);
    assert PhaseSound(worlds[i].clock, worlds[i].calls[labels[i].caller]);
  }
}
