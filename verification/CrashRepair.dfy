/** A refresh that crashes between the store's rotation and its row's commit, and the service refreshes that
    find the credential still fresh afterwards, over any path in between. */
module CrashRepair {
  import opened Outcomes
  import opened CredentialStore
  import opened AccountRows
  import opened AccountLane
  import opened AccountInvariants
  import opened RefreshAgreement
  import opened RefreshDrive

  /** This step writes scope `s`. */
  predicate Writes(w: World, l: Label, s: Scope) {
    Enabled(w, l) && StoreWrite(w, l).Some? && StoreWrite(w, l).value.0 == s
  }

  /** Nobody writes scope `s` from step `i` on. */
  ghost predicate NobodyWrites(worlds: seq<World>, labels: seq<Label>, i: nat, s: Scope)
    requires |labels| < |worlds|
  {
    forall k | i <= k < |labels| :: !Writes(worlds[k], labels[k], s)
  }

  lemma EntryStands(w: World, l: Label, s: Scope)
    requires Enabled(w, l) && !Writes(w, l, s)
    ensures EntryAt(Apply(w, l).store, s) == EntryAt(w.store, s)
  {
  }

  lemma {:induction false} EntryStandsAlong(worlds: seq<World>, labels: seq<Label>, i: nat, n: nat, s: Scope)
    requires IsPath(worlds, labels) && i <= n <= |labels| && NobodyWrites(worlds, labels, i, s)
    ensures EntryAt(worlds[n].store, s) == EntryAt(worlds[i].store, s)
    decreases n - i
  {
    if n == i {
    } else {
      EntryStandsAlong(worlds, labels, i, n - 1, s);
      assert StepAt(worlds, labels, n - 1) && !Writes(worlds[n - 1], labels[n - 1], s);
      EntryStands(worlds[n - 1], labels[n - 1], s);
    }
  }

  // ---------------------------------------------------------------- the account

  /** Account `id` is of scope `s`, as long as it is there. */
  predicate OfScope(w: World, id: AccountId, s: Scope) {
    && s.company == w.company && id in w.issued
    && (id in w.accounts ==> SameAccount(w.accounts[id], s.provider, s.accountRef))
  }

  lemma {:induction false} OfScopeAlong(worlds: seq<World>, labels: seq<Label>, i: nat, n: nat, id: AccountId, s: Scope)
    requires IsPath(worlds, labels) && Inv(worlds[0]) && i <= n <= |labels| && OfScope(worlds[i], id, s)
    ensures OfScope(worlds[n], id, s)
    decreases n - i
  {
    if n == i {
    } else {
      OfScopeAlong(worlds, labels, i, n - 1, id, s);
      PathKeeps(worlds, labels, n - 1);
      assert StepAt(worlds, labels, n - 1);
      StepKeeps(worlds[n - 1], labels[n - 1]);
      assert IdMoves(worlds[n - 1], worlds[n], id);
    }
  }

  lemma RefreshedIsOfScope(w: World, c: CallId)
    requires Inv(w) && IsRefreshing(w, c)
    ensures OfScope(w, w.calls[c].id, ScopeOf(w, w.calls[c].provider, w.calls[c].accountRef))
    ensures w.calls[c].id in w.accounts
  {
    assert Pinned(w, c, w.calls[c]);
  }

  lemma SameScope(w: World, c: CallId, s: Scope)
    requires Inv(w) && IsRefreshing(w, c) && OfScope(w, w.calls[c].id, s)
    ensures ScopeOf(w, w.calls[c].provider, w.calls[c].accountRef) == s
  {
    assert Pinned(w, c, w.calls[c]);
  }

  // ---------------------------------------------------------------- the repair

  /** Call `c` has just had `successor` stored for account `id` of scope `s`; at step `j` it is lost, with the
      rotation done and the row not committed; and nobody writes the scope after the rotation. */
  ghost predicate Lost(worlds: seq<World>, labels: seq<Label>, i: nat, j: nat, c: CallId, id: AccountId, s: Scope,
                       successor: Bundle)
    requires IsPath(worlds, labels)
  {
    && i < j < |labels|
    && labels[i] == Label(c, OfRefresh(RefreshAct.Rotate(None))) && IsRefreshing(worlds[i + 1], c)
    && worlds[i + 1].calls[c].phase.Stored? && worlds[i + 1].calls[c].phase.successor == successor
    && worlds[i + 1].calls[c].id == id
    && s == ScopeOf(worlds[i + 1], worlds[i + 1].calls[c].provider, worlds[i + 1].calls[c].accountRef)
    && labels[j] == Label(c, Fail) && IsRefreshing(worlds[j], c) && worlds[j].calls[c] == worlds[i + 1].calls[c]
    && NobodyWrites(worlds, labels, i + 1, s)
  }

  lemma RotationStores(w: World, c: CallId)
    requires Enabled(w, Label(c, OfRefresh(RefreshAct.Rotate(None))))
    requires IsRefreshing(Apply(w, Label(c, OfRefresh(RefreshAct.Rotate(None)))), c)
    requires Apply(w, Label(c, OfRefresh(RefreshAct.Rotate(None)))).calls[c].phase.Stored?
    ensures
      var v := Apply(w, Label(c, OfRefresh(RefreshAct.Rotate(None))));
      EntryAt(v.store, ScopeOf(v, v.calls[c].provider, v.calls[c].accountRef)) == Live(v.calls[c].phase.successor)
  {
  }

  /** The crash itself frees the row and leaves it as it was. */
  lemma CrashRollsBack(worlds: seq<World>, labels: seq<Label>, i: nat, j: nat, c: CallId, id: AccountId, s: Scope,
                       successor: Bundle)
    requires IsPath(worlds, labels) && Inv(worlds[0]) && Lost(worlds, labels, i, j, c, id, s, successor)
    ensures worlds[j + 1].accounts == worlds[j].accounts && id !in worlds[j + 1].locks
    ensures id in worlds[j].locks && worlds[j].locks[id] == c
  {
    PathKeeps(worlds, labels, j);
    assert StepAt(worlds, labels, j);
    assert Pinned(worlds[j], c, worlds[j].calls[c]);
  }

  /** What the crash lost is still in the store. */
  lemma SuccessorStays(worlds: seq<World>, labels: seq<Label>, i: nat, j: nat, n: nat, c: CallId, id: AccountId,
                       s: Scope, successor: Bundle)
    requires IsPath(worlds, labels) && Inv(worlds[0]) && Lost(worlds, labels, i, j, c, id, s, successor)
    requires i < n <= |labels|
    ensures EntryAt(worlds[n].store, s) == Live(successor) && OfScope(worlds[n], id, s)
  {
    assert StepAt(worlds, labels, i);
    RotationStores(worlds[i], c);
    EntryStandsAlong(worlds, labels, i + 1, n, s);
    PathKeeps(worlds, labels, i + 1);
    RefreshedIsOfScope(worlds[i + 1], c);
    OfScopeAlong(worlds, labels, i + 1, n, id, s);
  }

  /** A service refresh, just claimed, that will read its credential and find it fresh. */
  predicate FindsFresh(w: World, d: CallId, id: AccountId, x: Answers) {
    && IsRefreshing(w, d) && w.calls[d].id == id && w.calls[d].phase.Held? && w.calls[d].began == w.clock
    && w.calls[d].sweep.kind == Service && x.readFailure.None?
    && FreshInStore(w.calls[d].sweep.window, w.clock,
                    EntryAt(w.store, ScopeOf(w, w.calls[d].provider, w.calls[d].accountRef)))
  }

  /** `v` is `w` with account `id` expiring at `e`: the same rows otherwise, the same credentials. */
  ghost predicate OnlyExpirySet(w: World, v: World, id: AccountId, e: int) {
    && id in w.accounts && v.accounts == w.accounts[id := w.accounts[id].(expiresAt := Some(e))]
    && forall t :: EntryAt(v.store, t) == EntryAt(w.store, t)
  }

  /** The next service refresh of the account that finds its credential fresh, however much later and
      whatever ran in between, gives the row the expiry the lost refresh was about to write, and does
      nothing else. */
  lemma LostExpiryIsRestored(worlds: seq<World>, labels: seq<Label>, i: nat, j: nat, n: nat, c: CallId, id: AccountId,
                             s: Scope, successor: Bundle, d: CallId, x: Answers)
    requires IsPath(worlds, labels) && Inv(worlds[0]) && Lost(worlds, labels, i, j, c, id, s, successor)
    requires j < n <= |labels| && FindsFresh(worlds[n], d, id, x)
    ensures OnlyExpirySet(worlds[n], Drive(worlds[n], d, x), id, successor.expiresAt)
  {
    PathKeeps(worlds, labels, n);
    SuccessorStays(worlds, labels, i, j, n, c, id, s, successor);
    SameScope(worlds[n], d, s);
    FreshIsOnlyMirrored(worlds[n], d, x);
  }

  // ---------------------------------------------------------------- and stays restored

  /** Account `id` shows its scope's expiry, and no refresh of it is about to write another. */
  predicate Restored(w: World, id: AccountId, e: int) {
    id in w.accounts ==> w.accounts[id].status != Pending && w.accounts[id].expiresAt == Some(e)
  }

  predicate Harmless(call: Call, id: AccountId, e: int) {
    call.Refreshing? && call.id == id ==> !call.phase.Stored? && (call.phase.Stale? ==> call.phase.expiresAt == e)
  }

  ghost predicate AllHarmless(w: World, id: AccountId, e: int) {
    forall c | c in w.calls :: Harmless(w.calls[c], id, e)
  }

  ghost predicate Settled(w: World, id: AccountId, s: Scope, b: Bundle) {
    && Restored(w, id, b.expiresAt) && AllHarmless(w, id, b.expiresAt)
    && OfScope(w, id, s) && EntryAt(w.store, s) == Live(b)
  }

  lemma OwnHarmless(w: World, c: CallId, a: RefreshAct, id: AccountId, s: Scope, b: Bundle)
    requires Inv(w) && Settled(w, id, s, b) && Enabled(w, Label(c, OfRefresh(a)))
    requires !Writes(w, Label(c, OfRefresh(a)), s)
    ensures Harmless(RefreshNext(w, w.calls[c], a), id, b.expiresAt)
  {
    assert Harmless(w.calls[c], id, b.expiresAt);
    if w.calls[c].id == id { SameScope(w, c, s); }
    match a {
      case ReadBundle(_, _) =>
      case Exchange(_) =>
      case Rotate(_) =>
      case Settle =>
    }
  }

  lemma AllHarmlessKept(w: World, l: Label, id: AccountId, s: Scope, b: Bundle)
    requires Inv(w) && Settled(w, id, s, b) && Enabled(w, l) && !Writes(w, l, s)
    ensures AllHarmless(Apply(w, l), id, b.expiresAt)
  {
    var v := Apply(w, l);
    forall c | c in v.calls ensures Harmless(v.calls[c], id, b.expiresAt) {
      if c in w.calls { assert Harmless(w.calls[c], id, b.expiresAt); }
      if c == l.caller && l.act.OfRefresh? { OwnHarmless(w, c, l.act.refresh, id, s, b); }
    }
  }

  lemma RestoredKept(w: World, l: Label, id: AccountId, s: Scope, b: Bundle)
    requires Inv(w) && Settled(w, id, s, b) && Enabled(w, l)
    ensures Restored(Apply(w, l), id, b.expiresAt)
  {
    StepKeeps(w, l);
    assert IdMoves(w, Apply(w, l), id);
    if l.act == OfRefresh(Settle) {
      SettledMoves(w, l.caller);
      assert Harmless(w.calls[l.caller], id, b.expiresAt);
    }
  }

  lemma {:induction false} SettledAlong(worlds: seq<World>, labels: seq<Label>, n: nat, id: AccountId, s: Scope,
                                        b: Bundle)
    requires IsPath(worlds, labels) && Inv(worlds[0]) && n <= |labels| && Settled(worlds[0], id, s, b)
    requires NobodyWrites(worlds, labels, 0, s)
    ensures Settled(worlds[n], id, s, b)
  {
    if n == 0 {
    } else {
      SettledAlong(worlds, labels, n - 1, id, s, b);
      PathKeeps(worlds, labels, n - 1);
      assert StepAt(worlds, labels, n - 1) && !Writes(worlds[n - 1], labels[n - 1], s);
      AllHarmlessKept(worlds[n - 1], labels[n - 1], id, s, b);
      RestoredKept(worlds[n - 1], labels[n - 1], id, s, b);
      EntryStandsAlong(worlds, labels, 0, n, s);
      OfScopeAlong(worlds, labels, 0, n, id, s);
    }
  }

  /** A refresh that has ended leaves nobody with the account in hand. */
  lemma NobodyElseHolds(w: World, d: CallId, v: World, id: AccountId, e: int)
    requires Inv(v) && IsRefreshing(w, d) && w.calls[d].id == id && id !in v.locks
    ensures AllHarmless(v, id, e)
  {
    forall c | c in v.calls ensures Harmless(v.calls[c], id, e) {
      if v.calls[c].Refreshing? { assert Pinned(v, c, v.calls[c]); }
    }
  }

  lemma DriveFrees(w: World, d: CallId, x: Answers)
    requires Inv(w) && IsRefreshing(w, d) && w.calls[d].phase.Held? && w.calls[d].began == w.clock
    ensures Inv(Drive(w, d, x)) && w.calls[d].id !in Drive(w, d, x).locks
  {
    DriveKeeps(w, d, x);
    DriveIsRefresh(w, d, x);
  }

  lemma {:induction false} DriveKeepsIds(w: World, d: CallId, x: Answers)
    requires IsRefreshing(w, d)
    ensures Drive(w, d, x).company == w.company && Drive(w, d, x).issued == w.issued
    decreases StepsLeft(w.calls[d].phase)
  {
    var v := Apply(w, RefreshLabel(w, d, x));
    if IsRefreshing(v, d) {
      StepsDecrease(w, d, x);
      DriveKeepsIds(v, d, x);
    }
  }

  lemma RestoringSettles(w: World, d: CallId, id: AccountId, s: Scope, b: Bundle, x: Answers)
    requires Inv(w) && FindsFresh(w, d, id, x) && OfScope(w, id, s) && EntryAt(w.store, s) == Live(b)
    ensures Inv(Drive(w, d, x)) && Settled(Drive(w, d, x), id, s, b)
  {
    assert Pinned(w, d, w.calls[d]);
    SameScope(w, d, s);
    FreshIsOnlyMirrored(w, d, x);
    DriveFrees(w, d, x);
    DriveKeepsIds(w, d, x);
    NobodyElseHolds(w, d, Drive(w, d, x), id, b.expiresAt);
  }

  lemma NothingLeftToDo(w: World, e: CallId, id: AccountId, s: Scope, b: Bundle, y: Answers)
    requires Inv(w) && Settled(w, id, s, b) && FindsFresh(w, e, id, y)
    ensures Drive(w, e, y).accounts == w.accounts
    ensures forall t :: EntryAt(Drive(w, e, y).store, t) == EntryAt(w.store, t)
  {
    SameScope(w, e, s);
    FreshIsOnlyMirrored(w, e, y);
    var a := w.accounts[id];
    assert a == a.(expiresAt := Some(b.expiresAt));
    assert w.accounts[id := a] == w.accounts;
  }

  /** Once restored, the row keeps that expiry for as long as it is there and nobody writes its scope; every
      further service refresh that finds the credential fresh changes no row and no credential at all. */
  lemma FurtherRefreshChangesNothing(w: World, d: CallId, x: Answers, worlds: seq<World>, labels: seq<Label>, n: nat,
                                     id: AccountId, s: Scope, b: Bundle, e: CallId, y: Answers)
    requires Inv(w) && FindsFresh(w, d, id, x) && OfScope(w, id, s) && EntryAt(w.store, s) == Live(b)
    requires IsPath(worlds, labels) && worlds[0] == Drive(w, d, x) && NobodyWrites(worlds, labels, 0, s)
    requires n <= |labels| && FindsFresh(worlds[n], e, id, y)
    ensures Drive(worlds[n], e, y).accounts == worlds[n].accounts
    ensures forall t :: EntryAt(Drive(worlds[n], e, y).store, t) == EntryAt(worlds[n].store, t)
  {
    RestoringSettles(w, d, id, s, b, x);
    SettledAlong(worlds, labels, n, id, s, b);
    PathKeeps(worlds, labels, n);
    NothingLeftToDo(worlds[n], e, id, s, b, y);
  }

  /** Crash to repair in one: along `worlds` a refresh is lost after its rotation, and along `ws`, which goes
      on from the repairing refresh, nobody writes the scope either. The repair gives the row the lost expiry
      and does nothing else; a further refresh does nothing. */
  lemma CrashIsRepairedOnce(worlds: seq<World>, labels: seq<Label>, i: nat, j: nat, n: nat, c: CallId, id: AccountId,
                            s: Scope, successor: Bundle, d: CallId, x: Answers,
                            ws: seq<World>, ls: seq<Label>, m: nat, e: CallId, y: Answers)
    requires IsPath(worlds, labels) && Inv(worlds[0]) && Lost(worlds, labels, i, j, c, id, s, successor)
    requires j < n <= |labels| && FindsFresh(worlds[n], d, id, x)
    requires IsPath(ws, ls) && ws[0] == Drive(worlds[n], d, x) && NobodyWrites(ws, ls, 0, s)
    requires m <= |ls| && FindsFresh(ws[m], e, id, y)
    ensures OnlyExpirySet(worlds[n], ws[0], id, successor.expiresAt)
    ensures Drive(ws[m], e, y).accounts == ws[m].accounts
    ensures forall t :: EntryAt(Drive(ws[m], e, y).store, t) == EntryAt(ws[m].store, t)
  {
    LostExpiryIsRestored(worlds, labels, i, j, n, c, id, s, successor, d, x);
    SuccessorStays(worlds, labels, i, j, n, c, id, s, successor);
    PathKeeps(worlds, labels, n);
    FurtherRefreshChangesNothing(worlds[n], d, x, ws, ls, m, id, s, successor, e, y);
  }
}
