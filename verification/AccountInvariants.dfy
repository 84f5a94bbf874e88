/** What every step of the account lane keeps, whatever interleaves and wherever calls stop. */
module AccountInvariants {
  import opened Outcomes
  import opened CredentialStore
  import opened AccountRows
  import opened IdentityChecks
  import opened AccountLane

  // ---------------------------------------------------------------- the invariant

  /** The row under a refresh: locked by it, active, and still the account it was claimed as. */
  predicate Pinned(w: World, c: CallId, call: Call)
    requires call.Refreshing?
  {
    && call.id in w.locks && w.locks[call.id] == c
    && call.id in w.accounts && w.accounts[call.id].status == Active
    && SameAccount(w.accounts[call.id], call.provider, call.accountRef)
  }

  predicate HolderRuns(w: World, id: AccountId)
    requires id in w.locks
  {
    w.locks[id] in w.calls && w.calls[w.locks[id]].Refreshing? && w.calls[w.locks[id]].id == id
  }

  ghost predicate LocksHold(w: World) {
    && (forall c | c in w.calls && w.calls[c].Refreshing? :: Pinned(w, c, w.calls[c]))
    && (forall id | id in w.locks :: HolderRuns(w, id))
  }

  /** A verifier only while pending; both times from activation on. */
  predicate Shaped(a: Account) {
    match a.status
    case Pending => a.expiresAt.None? && a.refreshedAt.None?
    case Revoked => a.verifier.None?
    case _ => a.verifier.None? && a.expiresAt.Some? && a.refreshedAt.Some?
  }

  ghost predicate RowsHold(w: World) {
    forall id | id in w.accounts :: id in w.issued && Shaped(w.accounts[id])
  }

  /** Account `id`, if it is still there, is the one this completion read. */
  predicate ReadAs(w: World, id: AccountId, provider: string, accountRef: string) {
    id in w.issued && (id in w.accounts ==> SameAccount(w.accounts[id], provider, accountRef))
  }

  predicate StageHolds(w: World, id: AccountId, provider: string, b: Binding, stage: CompleteStage) {
    match stage
    case StateVerified => true
    case AccountRead(ref) => ReadAs(w, id, provider, ref)
    case VerifierRead(ref, _) => ReadAs(w, id, provider, ref)
    case Exchanged(ref, _, expiresAt, now) => ReadAs(w, id, provider, ref) && expiresAt > now
    case Identified(ref, _, expiresAt, now, e) => ReadAs(w, id, provider, ref) && expiresAt > now && Passes(e, b, ref)
    case Carried(ref, _, bundle, now, e) => ReadAs(w, id, provider, ref) && bundle.expiresAt > now && Passes(e, b, ref)
    case MustRotate(ref, _, bundle, now, e) =>
      ReadAs(w, id, provider, ref) && bundle.expiresAt > now && Passes(e, b, ref)
    case InStore(ref, _, bundle, now, e) => ReadAs(w, id, provider, ref) && bundle.expiresAt > now && Passes(e, b, ref)
  }

  predicate CallHolds(w: World, call: Call) {
    match call
    case Completing(id, provider, b, stage) => StageHolds(w, id, provider, b, stage)
    case Completed(id, provider, b, ref, expiresAt, now, e) =>
      && ReadAs(w, id, provider, ref) && expiresAt > now && Passes(e, b, ref)
      && (id in w.accounts ==> w.accounts[id].status != Pending)
    case Disconnecting(id, Found(provider, ref)) => ReadAs(w, id, provider, ref)
    case _ => true
  }

  ghost predicate CallsHold(w: World) {
    forall c | c in w.calls :: CallHolds(w, w.calls[c])
  }

  ghost predicate OneCompletion(w: World) {
    forall c, d | c in w.calls && d in w.calls && w.calls[c].Completed? && w.calls[d].Completed?
                  && w.calls[c].accountId == w.calls[d].accountId :: c == d
  }

  ghost predicate Inv(w: World) {
    LocksHold(w) && RowsHold(w) && CallsHold(w) && OneCompletion(w)
  }

  lemma InitiallyHolds(w: World)
    requires Initial(w)
    ensures Inv(w)
  {
  }

  // ---------------------------------------------------------------- how rows move

  /** pending → active | revoked, active → expired | revoked; an expired or revoked row is frozen. */
  predicate RowMoves(a: Account, b: Account) {
    && SameAccount(b, a.provider, a.accountRef)
    && match a.status
       case Pending => b == a || b.status == Active || b.status == AccountStatus.Revoked
       case Active => b.status != Pending
       case _ => b == a
  }

  /** An id is inserted once, pending, and an id once deleted never returns. */
  predicate IdMoves(w: World, v: World, id: AccountId) {
    if id in w.accounts then id in v.accounts ==> RowMoves(w.accounts[id], v.accounts[id])
    else id in v.accounts ==> id !in w.issued && v.accounts[id].status == Pending
  }

  ghost predicate AccountsMove(w: World, v: World) {
    w.issued <= v.issued && forall id :: IdMoves(w, v, id)
  }

  /** The refresh settling now holds its row, so its unguarded UPDATE hits an active one. */
  lemma SettledMoves(w: World, c: CallId)
    requires LocksHold(w) && RowsHold(w) && Enabled(w, Label(c, OfRefresh(Settle)))
    ensures
      var call, v := w.calls[c], SettledIn(w.accounts, w.calls[c]);
      && call.id in w.accounts && PhaseSettled(w, call) == call.phase
      && v == w.accounts[call.id := v[call.id]]
      && RowMoves(w.accounts[call.id], v[call.id]) && Shaped(v[call.id])
      && v[call.id].status == (if call.phase.Dying? then AccountStatus.Expired else Active)
  {
    assert Pinned(w, c, w.calls[c]);
    var a := w.accounts[w.calls[c].id];
    assert Shaped(a);
    match w.calls[c].phase {
      case LeftDue =>
      case Stale(_) =>
      case Dying(_) =>
      case Stored(_, _) =>
    }
  }

  lemma RowsAfterStep(w: World, l: Label)
    requires LocksHold(w) && RowsHold(w) && Enabled(w, l)
    ensures AccountsMove(w, Apply(w, l)) && RowsHold(Apply(w, l))
  {
    var v := Apply(w, l);
    if l.act == OfRefresh(Settle) {
      SettledMoves(w, l.caller);
    }
    forall id ensures IdMoves(w, v, id) && (id in v.accounts ==> id in v.issued && Shaped(v.accounts[id])) {
      if id in w.accounts { assert Shaped(w.accounts[id]); }
    }
  }

  /** A locked row stands still until its holder settles. */
  lemma LockedStands(w: World, l: Label, id: AccountId)
    requires LocksHold(w) && RowsHold(w) && Enabled(w, l) && id in w.locks
    requires !(l.act == OfRefresh(Settle) && w.locks[id] == l.caller)
    ensures id in w.accounts && id in NextAccounts(w, l) && NextAccounts(w, l)[id] == w.accounts[id]
  {
    assert HolderRuns(w, id);
    assert Pinned(w, w.locks[id], w.calls[w.locks[id]]);
    if l.act == OfRefresh(Settle) {
      assert Pinned(w, l.caller, w.calls[l.caller]);
    }
  }

  // ---------------------------------------------------------------- the locks

  /** A call that starts refreshing has just claimed an unlocked active row; one that goes on refreshing
      keeps its row. */
  lemma RefreshingNext(w: World, l: Label)
    requires LocksHold(w) && Enabled(w, l) && !Callless(l.act) && NextCall(w, l).Refreshing?
    ensures
      var next := NextCall(w, l);
      if l.caller in w.calls && w.calls[l.caller].Refreshing?
      then next.id == w.calls[l.caller].id && l.act != OfRefresh(Settle)
           && next.provider == w.calls[l.caller].provider && next.accountRef == w.calls[l.caller].accountRef
      else next.id !in w.locks && next.id in w.accounts && w.accounts[next.id].status == Active
           && SameAccount(w.accounts[next.id], next.provider, next.accountRef) && NextAccounts(w, l) == w.accounts
  {
  }

  lemma LocksKeep(w: World, l: Label)
    requires LocksHold(w) && RowsHold(w) && Enabled(w, l)
    ensures LocksHold(Apply(w, l))
  {
    var v := Apply(w, l);
    var c := l.caller;
    if !Callless(l.act) && NextCall(w, l).Refreshing? { RefreshingNext(w, l); }
    if c in w.calls && w.calls[c].Refreshing? { assert Pinned(w, c, w.calls[c]); }
    forall d | d in v.calls && v.calls[d].Refreshing? ensures Pinned(v, d, v.calls[d]) {
      if d in w.calls && w.calls[d].Refreshing? {
        assert Pinned(w, d, w.calls[d]);
        LockedStands(w, l, w.calls[d].id);
      }
    }
    forall id | id in v.locks ensures HolderRuns(v, id) {
      if id in w.locks { assert HolderRuns(w, id); }
    }
  }

  // ---------------------------------------------------------------- the calls

  lemma StageKept(w: World, v: World, call: Call)
    requires AccountsMove(w, v) && CallHolds(w, call)
    ensures CallHolds(v, call)
  {
    if call.Completing? || call.Completed? || call.Disconnecting? { assert IdMoves(w, v, call.accountId); }
  }

  lemma CompletionNext(w: World, c: CallId, a: CompleteAct)
    requires RowsHold(w) && CallsHold(w) && Enabled(w, Label(c, OfComplete(a))) && a != Activate
    ensures !CompleteNext(w, w.calls[c], a).Completed?
    ensures CallHolds(w, CompleteNext(w, w.calls[c], a))
  {
    assert CallHolds(w, w.calls[c]);
  }

  lemma ActivatedNext(w: World, c: CallId)
    requires RowsHold(w) && CallsHold(w) && Enabled(w, Label(c, OfComplete(Activate)))
    ensures
      var l := Label(c, OfComplete(Activate));
      CallHolds(Apply(w, l), Apply(w, l).calls[c])
  {
    assert CallHolds(w, w.calls[c]);
  }

  lemma OwnCallHolds(w: World, l: Label)
    requires LocksHold(w) && RowsHold(w) && CallsHold(w) && Enabled(w, l) && !Callless(l.act)
    ensures CallHolds(Apply(w, l), Apply(w, l).calls[l.caller])
    ensures NextCall(w, l).Completed? ==> l.act == OfComplete(Activate)
  {
    RowsAfterStep(w, l);
    if l.act == OfComplete(Activate) {
      ActivatedNext(w, l.caller);
    } else if l.act.OfComplete? {
      CompletionNext(w, l.caller, l.act.complete);
      StageKept(w, Apply(w, l), NextCall(w, l));
    }
  }

  lemma CallsKeep(w: World, l: Label)
    requires LocksHold(w) && RowsHold(w) && CallsHold(w) && Enabled(w, l)
    ensures CallsHold(Apply(w, l))
  {
    var v := Apply(w, l);
    RowsAfterStep(w, l);
    forall c | c in v.calls ensures CallHolds(v, v.calls[c]) {
      if c == l.caller && !Callless(l.act) {
        OwnCallHolds(w, l);
      } else {
        StageKept(w, v, w.calls[c]);
      }
    }
  }

  lemma OneCompletionKept(w: World, l: Label)
    requires Inv(w) && Enabled(w, l)
    ensures OneCompletion(Apply(w, l))
  {
    var v := Apply(w, l);
    if !Callless(l.act) {
      OwnCallHolds(w, l);
      if v.calls[l.caller].Completed? {
        forall d | d in w.calls && w.calls[d].Completed? ensures w.calls[d].accountId != v.calls[l.caller].accountId {
          assert CallHolds(w, w.calls[d]);
        }
      }
    }
  }

  /** The whole invariant over one step. */
  lemma StepKeeps(w: World, l: Label)
    requires Inv(w) && Enabled(w, l)
    ensures Inv(Apply(w, l)) && AccountsMove(w, Apply(w, l))
  {
    RowsAfterStep(w, l);
    LocksKeep(w, l);
    CallsKeep(w, l);
    OneCompletionKept(w, l);
  }

  lemma {:induction false} PathKeeps(worlds: seq<World>, labels: seq<Label>, n: nat)
    requires IsPath(worlds, labels) && Inv(worlds[0]) && n <= |labels|
    ensures Inv(worlds[n])
  {
    if n == 0 {
    } else {
      PathKeeps(worlds, labels, n - 1);
      assert StepAt(worlds, labels, n - 1);
      StepKeeps(worlds[n - 1], labels[n - 1]);
    }
  }
}
