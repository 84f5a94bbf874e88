/** What the account lane promises over whole runs: the lifecycle of an account id, exclusive refreshes,
    and what a completion that answered Ok, or was rejected, has done. */
module AccountResults {
  import opened Outcomes
  import opened CredentialStore
  import opened AccountRows
  import opened EndpointGuard
  import opened IdentityChecks
  import opened AccountLane
  import opened AccountInvariants

  lemma RunSound(worlds: seq<World>, labels: seq<Label>, n: nat)
    requires IsRun(worlds, labels) && n <= |labels|
    ensures Inv(worlds[n])
  {
    InitiallyHolds(worlds[0]);
    PathKeeps(worlds, labels, n);
  }

  /** The credential a reader of scope `s` gets: the live one, if it has not expired. */
  function Readable(w: World, s: Scope): Option<Bundle> {
    if s in w.store && w.store[s].Live? && w.store[s].credential.expiresAt > w.clock then Some(w.store[s].credential)
    else None
  }

  /** Every call stands where its own last step left it. */
  lemma {:induction false} LastMove(worlds: seq<World>, labels: seq<Label>, n: nat, c: CallId) returns (j: nat)
    requires IsRun(worlds, labels) && n <= |labels| && c in worlds[n].calls
    ensures j < n && labels[j].caller == c && !Callless(labels[j].act)
    ensures c in worlds[j + 1].calls && worlds[j + 1].calls[c] == worlds[n].calls[c]
  {
    assert n > 0;
    assert StepAt(worlds, labels, n - 1);
    if labels[n - 1].caller == c && !Callless(labels[n - 1].act) {
      j := n - 1;
    } else {
      j := LastMove(worlds, labels, n - 1, c);
    }
  }

  // ---------------------------------------------------------------- lifecycle

  /** Where a row may be some steps later. */
  predicate Later(a: Account, b: Account) {
    && SameAccount(b, a.provider, a.accountRef)
    && match a.status
       case Pending => b.status == Pending ==> b == a
       case Active => b.status != Pending
       case _ => b == a
  }

  ghost predicate IdLater(w: World, v: World, id: AccountId) {
    if id in w.accounts then id in v.accounts ==> Later(w.accounts[id], v.accounts[id])
    else id in w.issued ==> id !in v.accounts
  }

  lemma LaterThenMoves(u: World, v: World, w: World, id: AccountId)
    requires RowsHold(u) && u.issued <= v.issued && AccountsMove(v, w) && IdLater(u, v, id)
    ensures IdLater(u, w, id)
  {
    assert IdMoves(v, w, id);
    if id in u.accounts { assert id in u.issued; }
  }

  /** Between any two worlds of a run, each account id has only moved forward: pending to active or
      revoked, active to expired or revoked, with expired and revoked rows frozen to the letter, and a
      deleted id gone for good. */
  lemma {:induction false} LifecycleOverTime(worlds: seq<World>, labels: seq<Label>, i: nat, j: nat, id: AccountId)
    requires IsRun(worlds, labels) && i <= j <= |labels|
    ensures IdLater(worlds[i], worlds[j], id) && worlds[i].issued <= worlds[j].issued
    ensures id in worlds[j].accounts ==> id in worlds[j].issued && Shaped(worlds[j].accounts[id])
    decreases j - i
  {
    RunSound(worlds, labels, j);
    if i == j {
    } else {
      RunSound(worlds, labels, i);
      LifecycleOverTime(worlds, labels, i, j - 1, id);
      RunSound(worlds, labels, j - 1);
      assert StepAt(worlds, labels, j - 1);
      StepKeeps(worlds[j - 1], labels[j - 1]);
      LaterThenMoves(worlds[i], worlds[j - 1], worlds[j], id);
    }
  }

  /** One step at a time there is no shortcut from pending to expired, and nothing returns to pending. */
  lemma LifecycleByStep(worlds: seq<World>, labels: seq<Label>, i: nat, id: AccountId)
    requires IsRun(worlds, labels) && i < |labels|
    requires id in worlds[i].accounts && id in worlds[i + 1].accounts
    ensures
      var (a, b) := (worlds[i].accounts[id].status, worlds[i + 1].accounts[id].status);
      a == b || (a == Pending && (b == Active || b == AccountStatus.Revoked))
             || (a == Active && (b == AccountStatus.Expired || b == AccountStatus.Revoked))
  {
    RunSound(worlds, labels, i);
    assert StepAt(worlds, labels, i);
    StepKeeps(worlds[i], labels[i]);
    assert IdMoves(worlds[i], worlds[i + 1], id);
  }

  /** Overlapping sweeps and on-use refreshes hold disjoint accounts at all times. */
  lemma HoldDisjointAccounts(worlds: seq<World>, labels: seq<Label>, n: nat, c: CallId, d: CallId)
    requires IsRun(worlds, labels) && n <= |labels|
    requires c in worlds[n].calls && d in worlds[n].calls && worlds[n].calls[c].Refreshing?
    requires worlds[n].calls[d].Refreshing?
    requires worlds[n].calls[c].id == worlds[n].calls[d].id
    ensures c == d
  {
    RunSound(worlds, labels, n);
    assert Pinned(worlds[n], c, worlds[n].calls[c]) && Pinned(worlds[n], d, worlds[n].calls[d]);
  }

  // ---------------------------------------------------------------- the writes without a guard

  /** The refresh's write with the guard the job's statements lack. */
  function GuardedIn(accounts: map<AccountId, Account>, call: Call): map<AccountId, Account>
    requires call.Refreshing? && Terminal(call.phase)
  {
    if call.id in accounts && accounts[call.id].status == Active
    then accounts[call.id := SettledRow(call.sweep.kind, call.phase, call.began, accounts[call.id]).(verifier := None)]
    else accounts
  }

  /** The lock stands in for the missing guards: with `AND status = 'active'` and `pkce_verifier = NULL`
      in every one of them, no settling refresh would write anything else, nor count anything else. */
  lemma LockReplacesGuard(worlds: seq<World>, labels: seq<Label>, i: nat)
    requires IsRun(worlds, labels) && i < |labels| && labels[i].act == OfRefresh(Settle)
    ensures
      var w, c := worlds[i], labels[i].caller;
      Enabled(w, labels[i])
      && worlds[i + 1].accounts == GuardedIn(w.accounts, w.calls[c])
      && c in worlds[i + 1].calls
      && var (s, phase) := (w.calls[c].sweep, w.calls[c].phase);
         worlds[i + 1].calls[c] == Sweeping(s.(report := Counted(s.report, phase)))
  {
    RunSound(worlds, labels, i);
    assert StepAt(worlds, labels, i);
    var w, c := worlds[i], labels[i].caller;
    SettledMoves(w, c);
    assert Pinned(w, c, w.calls[c]);
    assert Shaped(w.accounts[w.calls[c].id]);
  }

  // ---------------------------------------------------------------- completions that answered Ok

  /** Call `c` puts a credential of that provider, account and expiry into the store. */
  predicate Stores(w: World, l: Label, c: CallId, provider: string, accountRef: string, expiresAt: int) {
    && l.caller == c && Enabled(w, l) && StoreWrite(w, l).Some?
    && var (s, e) := StoreWrite(w, l).value;
       s == ScopeOf(w, provider, accountRef) && e.Live? && e.credential.expiresAt == expiresAt
  }

  predicate InStoreWith(call: Call, provider: string, accountRef: string, expiresAt: int) {
    && call.Completing? && call.provider == provider && call.stage.InStore?
    && call.stage.accountRef == accountRef && call.stage.bundle.expiresAt == expiresAt
  }

  /** Only a store write that succeeded brings a completion to its last statement. */
  lemma EntersStore(w: World, l: Label, provider: string, accountRef: string, expiresAt: int)
    requires Enabled(w, l) && !Callless(l.act) && InStoreWith(NextCall(w, l), provider, accountRef, expiresAt)
    ensures Stores(w, l, l.caller, provider, accountRef, expiresAt)
  {
  }

  lemma {:induction false} StoredEarlier(worlds: seq<World>, labels: seq<Label>, n: nat, c: CallId, provider: string,
                                         accountRef: string, expiresAt: int)
    returns (k: nat)
    requires IsRun(worlds, labels) && n <= |labels|
    requires c in worlds[n].calls && InStoreWith(worlds[n].calls[c], provider, accountRef, expiresAt)
    ensures k < n && Stores(worlds[k], labels[k], c, provider, accountRef, expiresAt)
  {
    assert n > 0;
    assert StepAt(worlds, labels, n - 1);
    if c in worlds[n - 1].calls && worlds[n - 1].calls[c] == worlds[n].calls[c] {
      k := StoredEarlier(worlds, labels, n - 1, c, provider, accountRef, expiresAt);
    } else {
      EntersStore(worlds[n - 1], labels[n - 1], provider, accountRef, expiresAt);
      k := n - 1;
    }
  }

  lemma CompletesByActivating(w: World, l: Label)
    requires Inv(w) && Enabled(w, l) && !Callless(l.act) && NextCall(w, l).Completed?
    ensures
      var next, v := NextCall(w, l), Apply(w, l);
      && l.act == OfComplete(Activate)
      && InStoreWith(w.calls[l.caller], next.provider, next.accountRef, next.expiresAt)
      && next.accountId in v.accounts && Fits(v.accounts[next.accountId], next)
  {
    OwnCallHolds(w, l);
    assert CallHolds(w, w.calls[l.caller]);
  }

  /** The row as an Ok reported it. */
  predicate Fits(a: Account, done: Call)
    requires done.Completed?
  {
    && SameAccount(a, done.provider, done.accountRef) && a.status == Active
    && a.expiresAt == Some(done.expiresAt) && a.refreshedAt == Some(done.now) && a.verifier.None?
  }

  lemma {:induction false} ActivatedEarlier(worlds: seq<World>, labels: seq<Label>, n: nat, c: CallId) returns (m: nat)
    requires IsRun(worlds, labels) && n <= |labels| && c in worlds[n].calls && worlds[n].calls[c].Completed?
    ensures
      var done := worlds[n].calls[c];
      && m < n && labels[m] == Label(c, OfComplete(Activate))
      && c in worlds[m].calls && InStoreWith(worlds[m].calls[c], done.provider, done.accountRef, done.expiresAt)
      && done.accountId in worlds[m + 1].accounts && Fits(worlds[m + 1].accounts[done.accountId], done)
  {
    assert n > 0;
    assert StepAt(worlds, labels, n - 1);
    if c in worlds[n - 1].calls && worlds[n - 1].calls[c] == worlds[n].calls[c] {
      m := ActivatedEarlier(worlds, labels, n - 1, c);
    } else {
      RunSound(worlds, labels, n - 1);
      CompletesByActivating(worlds[n - 1], labels[n - 1]);
      m := n - 1;
    }
  }

  predicate Bound(call: Call, id: AccountId, provider: string, b: Binding) {
    || (call.Completing? && call.accountId == id && call.provider == provider && call.binding == b)
    || (call.Completed? && call.accountId == id && call.provider == provider && call.binding == b)
  }

  /** A completion is held to what it began with. */
  lemma {:induction false} BoundFromStart(worlds: seq<World>, labels: seq<Label>, n: nat, c: CallId, id: AccountId,
                                          provider: string, b: Binding)
    returns (k: nat)
    requires IsRun(worlds, labels) && n <= |labels|
    requires c in worlds[n].calls && Bound(worlds[n].calls[c], id, provider, b)
    ensures k < n && labels[k] == Label(c, Begin(Completing(id, provider, b, StateVerified)))
  {
    assert n > 0;
    assert StepAt(worlds, labels, n - 1);
    if c in worlds[n - 1].calls {
      k := BoundFromStart(worlds, labels, n - 1, c, id, provider, b);
    } else {
      k := n - 1;
    }
  }

  /** An Ok means: audience, nonce and e-mail all passed; and one expiry, later than the clock reading it
      was computed from, was first put into the store, then written to the row, then returned. */
  lemma OkMeans(worlds: seq<World>, labels: seq<Label>, n: nat, c: CallId)
    requires IsRun(worlds, labels) && n <= |labels| && c in worlds[n].calls && worlds[n].calls[c].Completed?
    ensures
      var done := worlds[n].calls[c];
      && Passes(done.evidence, done.binding, done.accountRef) && done.expiresAt > done.now
      && (exists b :: 0 <= b < n
           && labels[b] == Label(c, Begin(Completing(done.accountId, done.provider, done.binding, StateVerified))))
      && exists k, m :: 0 <= k < m < n
           && Stores(worlds[k], labels[k], c, done.provider, done.accountRef, done.expiresAt)
           && labels[m] == Label(c, OfComplete(Activate))
           && done.accountId in worlds[m + 1].accounts && Fits(worlds[m + 1].accounts[done.accountId], done)
  {
    var done := worlds[n].calls[c];
    RunSound(worlds, labels, n);
    assert CallHolds(worlds[n], done);
    var b := BoundFromStart(worlds, labels, n, c, done.accountId, done.provider, done.binding);
    var m := ActivatedEarlier(worlds, labels, n, c);
    var k := StoredEarlier(worlds, labels, m, c, done.provider, done.accountRef, done.expiresAt);
    assert Stores(worlds[k], labels[k], c, done.provider, done.accountRef, done.expiresAt);
  }

  /** For the caller: an Ok means the provider named this client and this authorization's nonce, each at least
      once and never otherwise, and a mailbox that is, letter case and outer white space aside, the account's,
      or any mailbox if the configuration has the bypass. */
  lemma OkNames(worlds: seq<World>, labels: seq<Label>, n: nat, c: CallId)
    requires IsRun(worlds, labels) && n <= |labels| && c in worlds[n].calls && worlds[n].calls[c].Completed?
    ensures
      var done := worlds[n].calls[c];
      var (identity, token, b) := (done.evidence.identity, done.evidence.token, done.binding);
      && (identity.audience == Some(b.clientId)
          || (identity.audience.None? && token.Some? && token.value.audience == Some(b.clientId)))
      && (identity.nonce == Some(b.nonce)
          || (identity.nonce.None? && token.Some? && token.value.nonce == Some(b.nonce)))
      && (token.Some? && token.value.audience.Some? ==> Names(token.value.audience, b.clientId))
      && (token.Some? && token.value.nonce.Some? ==> Names(token.value.nonce, b.nonce))
      && identity.email.Some? && identity.emailVerified != Some(false)
      && exists i, j :: Core(identity.email.value, i, j)
           && (b.bypass || SameText(identity.email.value[i..j], done.accountRef))
  {
    OkMeans(worlds, labels, n, c);
    var done := worlds[n].calls[c];
    AcceptedNames(done.evidence.identity, done.evidence.token, done.binding.clientId, done.binding.nonce);
    AcceptedAddresses(done.evidence.identity, done.accountRef, done.binding.bypass);
  }

  lemma {:induction false} DoneStays(worlds: seq<World>, labels: seq<Label>, i: nat, j: nat, c: CallId)
    requires IsRun(worlds, labels) && i <= j <= |labels| && c in worlds[i].calls && worlds[i].calls[c].Completed?
    ensures c in worlds[j].calls && worlds[j].calls[c] == worlds[i].calls[c]
    decreases j - i
  {
    if i == j {
    } else {
      DoneStays(worlds, labels, i, j - 1, c);
      assert StepAt(worlds, labels, j - 1);
    }
  }

  /** For one account at most one completion ever answers Ok. */
  lemma OneOkPerAccount(worlds: seq<World>, labels: seq<Label>, i: nat, c: CallId, j: nat, d: CallId)
    requires IsRun(worlds, labels) && i <= j <= |labels|
    requires c in worlds[i].calls && worlds[i].calls[c].Completed?
    requires d in worlds[j].calls && worlds[j].calls[d].Completed?
    requires worlds[i].calls[c].accountId == worlds[j].calls[d].accountId
    ensures c == d
  {
    DoneStays(worlds, labels, i, j, c);
    RunSound(worlds, labels, j);
  }

  // ---------------------------------------------------------------- completions that were rejected

  predicate CompletionStep(w: World, l: Label, c: CallId) {
    && l.caller == c && c in w.calls && w.calls[c].Completing? && !Callless(l.act)
  }

  predicate LeavesTables(w: World, v: World) {
    v.accounts == w.accounts && v.store == w.store && v.locks == w.locks
  }

  lemma QuietCompletion(w: World, l: Label)
    requires Enabled(w, l) && CompletionStep(w, l, l.caller) && l.act != OfComplete(Activate)
    requires !(NextCall(w, l).Completing? && NextCall(w, l).stage.InStore?)
    ensures LeavesTables(w, Apply(w, l))
  {
  }

  predicate ReachesStore(w: World, c: CallId) {
    c in w.calls && w.calls[c].Completing? && w.calls[c].stage.InStore?
  }

  lemma NeverActivates(worlds: seq<World>, labels: seq<Label>, c: CallId, i: nat)
    requires IsRun(worlds, labels) && i < |labels| && labels[i].caller == c
    requires !ReachesStore(worlds[i], c)
    ensures labels[i].act != OfComplete(Activate)
  {
    assert StepAt(worlds, labels, i);
  }

  /** A completion whose credential never reached the store has changed nothing: not one of its steps
      touched an account, a lock or the store, whichever check turned it away. */
  lemma RejectedBeforeStore(worlds: seq<World>, labels: seq<Label>, c: CallId, i: nat)
    requires IsRun(worlds, labels) && i < |labels| && CompletionStep(worlds[i], labels[i], c)
    requires forall k | 0 <= k <= |labels| :: !ReachesStore(worlds[k], c)
    ensures LeavesTables(worlds[i], worlds[i + 1])
  {
    assert StepAt(worlds, labels, i);
    assert !ReachesStore(worlds[i], c) && !ReachesStore(worlds[i + 1], c);
    NeverActivates(worlds, labels, c, i);
    QuietCompletion(worlds[i], labels[i]);
  }

  // ---------------------------------------------------------------- the other half

  /** The entry of a completion's scope. */
  function OwnEntry(w: World, call: Call): Entry
    requires call.Completing? && !call.stage.StateVerified?
  {
    EntryAt(w.store, ScopeOf(w, call.provider, call.stage.accountRef))
  }

  /** The store takes a verb of the completion that is stepping. */
  predicate Accepted(w: World, l: Label) {
    && Enabled(w, l) && l.act.OfComplete?
    && match l.act.complete
       case IssueCredential(injected) => FirstOf(injected, IssueAnswer(OwnEntry(w, w.calls[l.caller]))).None?
       case RotateInstead(injected) => FirstOf(injected, RotateAnswer(OwnEntry(w, w.calls[l.caller]))).None?
       case _ => false
  }

  predicate AcceptedAt(worlds: seq<World>, labels: seq<Label>, i: nat, c: CallId)
    requires i < |labels| < |worlds|
  {
    CompletionStep(worlds[i], labels[i], c) && Accepted(worlds[i], labels[i])
  }

  /** The live credential of a completion that reached the store. */
  predicate Holds(w: World, c: CallId)
    requires ReachesStore(w, c)
  {
    OwnEntry(w, w.calls[c]) == Live(w.calls[c].stage.bundle)
  }

  lemma AcceptedReaches(w: World, l: Label)
    requires Enabled(w, l) && CompletionStep(w, l, l.caller)
    ensures Accepted(w, l) <==> ReachesStore(Apply(w, l), l.caller)
    ensures Accepted(w, l) ==> Holds(Apply(w, l), l.caller)
  {
  }

  lemma {:induction false} ReachedByAcceptance(worlds: seq<World>, labels: seq<Label>, n: nat, c: CallId)
    returns (i: nat)
    requires IsRun(worlds, labels) && n <= |labels| && ReachesStore(worlds[n], c)
    ensures i < n && AcceptedAt(worlds, labels, i, c)
  {
    assert n > 0;
    assert StepAt(worlds, labels, n - 1);
    if ReachesStore(worlds[n - 1], c) {
      i := ReachedByAcceptance(worlds, labels, n - 1, c);
    } else {
      AcceptedReaches(worlds[n - 1], labels[n - 1]);
      i := n - 1;
    }
  }

  ghost predicate EverReaches(worlds: seq<World>, labels: seq<Label>, c: CallId)
    requires |worlds| == |labels| + 1
  {
    exists k :: 0 <= k <= |labels| && ReachesStore(worlds[k], c)
  }

  ghost predicate EverAccepted(worlds: seq<World>, labels: seq<Label>, c: CallId)
    requires |worlds| == |labels| + 1
  {
    exists i :: 0 <= i < |labels| && AcceptedAt(worlds, labels, i, c)
  }

  /** A completion has written the store if and only if it reached its last statement; then its bundle was
      live in its scope as it got there, and if it never did, none of its steps changed anything. */
  lemma ZeroWritesExactly(worlds: seq<World>, labels: seq<Label>, c: CallId)
    requires IsRun(worlds, labels)
    ensures EverAccepted(worlds, labels, c) <==> EverReaches(worlds, labels, c)
    ensures forall i | 0 <= i < |labels| && AcceptedAt(worlds, labels, i, c) ::
      ReachesStore(worlds[i + 1], c) && Holds(worlds[i + 1], c)
    ensures !EverReaches(worlds, labels, c) ==>
      forall i | 0 <= i < |labels| && CompletionStep(worlds[i], labels[i], c) :: LeavesTables(worlds[i], worlds[i + 1])
  {
    forall i | 0 <= i < |labels| && AcceptedAt(worlds, labels, i, c)
      ensures ReachesStore(worlds[i + 1], c) && Holds(worlds[i + 1], c)
    {
      assert StepAt(worlds, labels, i);
      AcceptedReaches(worlds[i], labels[i]);
    }
    if EverReaches(worlds, labels, c) {
      var k :| 0 <= k <= |labels| && ReachesStore(worlds[k], c);
      var i := ReachedByAcceptance(worlds, labels, k, c);
      assert AcceptedAt(worlds, labels, i, c);
    } else {
      forall i | 0 <= i < |labels| && CompletionStep(worlds[i], labels[i], c)
        ensures LeavesTables(worlds[i], worlds[i + 1])
      {
        RejectedBeforeStore(worlds, labels, c, i);
      }
    }
  }

  predicate StillPending(w: World, id: AccountId) {
    id in w.accounts && w.accounts[id].status == Pending
  }

  /** From there on, database permitting, it is turned away exactly when its row is no longer pending. */
  lemma TurnedAwayExactly(worlds: seq<World>, labels: seq<Label>, i: nat, c: CallId)
    requires IsRun(worlds, labels) && i < |labels| && CompletionStep(worlds[i], labels[i], c)
    requires ReachesStore(worlds[i], c) && !labels[i].act.Fail?
    ensures c in worlds[i + 1].calls
    ensures worlds[i + 1].calls[c] == Ended <==> !StillPending(worlds[i], worlds[i].calls[c].accountId)
    ensures worlds[i + 1].calls[c].Completed? <==> StillPending(worlds[i], worlds[i].calls[c].accountId)
  {
    assert StepAt(worlds, labels, i);
  }

  // ---------------------------------------------------------------- refresh on use

  /** The account was not due when looked at, or could not be claimed when due. */
  predicate NothingToRefresh(w: World, l: Label, id: AccountId, window: int) {
    && Enabled(w, l) && l.act.OfUse? && w.calls[l.caller].accountId == id && w.calls[l.caller].window == window
    && match l.act.use
       case CheckDue =>
         && id in w.accounts
         && (w.accounts[id].status == Active && w.accounts[id].expiresAt.Some? ==>
               w.clock + window <= w.accounts[id].expiresAt.value)
       case ClaimOnUse => !(id in w.accounts && w.accounts[id].status == Active && id !in w.locks)
  }

  /** An on-use call that refreshed nothing had nothing to refresh when it looked. */
  lemma LeftAloneMeans(worlds: seq<World>, labels: seq<Label>, n: nat, c: CallId) returns (k: nat)
    requires IsRun(worlds, labels) && n <= |labels| && c in worlds[n].calls && worlds[n].calls[c].LeftAlone?
    ensures k < n && labels[k].caller == c
    ensures NothingToRefresh(worlds[k], labels[k], worlds[n].calls[c].accountId, worlds[n].calls[c].window)
  {
    k := LastMove(worlds, labels, n, c);
    assert StepAt(worlds, labels, k);
  }
}
