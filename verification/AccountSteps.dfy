/** What the remaining steps of the account lane take and write, column by column: an authorization, a sweep's
    claim, a refresh on use, a disconnect. */
module AccountSteps {
  import opened Outcomes
  import opened CredentialStore
  import opened AccountRows
  import opened AccountLane
  import opened AccountInvariants
  import opened AccountResults

  // ---------------------------------------------------------------- authorize

  /** An authorization leaves, of all the rows of its account that it sees, one: new, pending, with the verifier it
      brought. No other row moves, and it waits for whoever holds one it deletes. */
  lemma AuthorizeWrites(worlds: seq<World>, labels: seq<Label>, k: nat, newId: AccountId, row: Account,
                        unseen: set<AccountId>)
    requires IsRun(worlds, labels) && k < |labels| && labels[k].act == Authorize(newId, row, unseen)
    ensures
      var (w, v) := (worlds[k], worlds[k + 1]);
      && newId !in w.accounts && newId in v.accounts && newId in v.issued && v.store == w.store && v.locks == w.locks
      && v.accounts[newId] == Account(row.provider, row.accountRef, Pending, row.scopes, row.verifier, None, None)
      && forall j | j != newId ::
        if j in w.accounts && w.accounts[j].provider == row.provider && w.accounts[j].accountRef == row.accountRef
           && j !in unseen
        then j !in v.accounts && j !in w.locks
        else (j in v.accounts <==> j in w.accounts) && (j in v.accounts ==> v.accounts[j] == w.accounts[j])
  {
    assert StepAt(worlds, labels, k);
    RunSound(worlds, labels, k);
  }

  // ---------------------------------------------------------------- claims

  /** Active, about to expire within the window, held by nobody, and for the job not attempted before. */
  predicate Waits(w: World, s: Sweep, id: AccountId) {
    && id in w.accounts && w.accounts[id].status == Active
    && w.accounts[id].expiresAt.Some? && w.accounts[id].expiresAt.value < w.clock + s.window
    && id !in w.locks && (s.kind == Job ==> id !in s.attempted)
  }

  /** A claim takes an account that waits and of those one that expires first, locks it, and reads off it what the
      refresh goes by. */
  lemma ClaimTakes(worlds: seq<World>, labels: seq<Label>, k: nat, c: CallId, id: AccountId)
    requires IsRun(worlds, labels) && k < |labels| && labels[k] == Label(c, OfSweep(Claim(id)))
    ensures c in worlds[k].calls && worlds[k].calls[c].Sweeping? && c in worlds[k + 1].calls
    ensures
      var (w, v, s) := (worlds[k], worlds[k + 1], worlds[k].calls[c].sweep);
      && s.left > 0 && Waits(w, s, id) && v.accounts == w.accounts && v.store == w.store
      && (forall j | Waits(w, s, j) :: w.accounts[id].expiresAt.value <= w.accounts[j].expiresAt.value)
      && v.locks == w.locks[id := c]
      && v.calls[c] == Refreshing(Sweep(s.kind, s.window, s.left - 1, s.attempted + [id], s.report), id,
                                  w.accounts[id].provider, w.accounts[id].accountRef, w.clock, Held)
  {
    assert StepAt(worlds, labels, k);
    var (w, s) := (worlds[k], worlds[k].calls[c].sweep);
    forall j | Waits(w, s, j) ensures w.accounts[id].expiresAt.value <= w.accounts[j].expiresAt.value {
      assert Claimable(w, s, j);
    }
  }

  /** A sweep ends when its batch is spent, or when nothing waits. */
  lemma SweepEnds(worlds: seq<World>, labels: seq<Label>, n: nat, c: CallId) returns (k: nat)
    requires IsRun(worlds, labels) && n <= |labels| && c in worlds[n].calls && worlds[n].calls[c].SweepDone?
    ensures
      var s := worlds[n].calls[c].sweep;
      && k < n && labels[k].caller == c && c in worlds[k].calls && worlds[k].calls[c] == Sweeping(s)
      && (s.left == 0 || forall j :: !Waits(worlds[k], s, j))
  {
    k := LastMove(worlds, labels, n, c);
    assert StepAt(worlds, labels, k);
    var (w, s) := (worlds[k], worlds[n].calls[c].sweep);
    if s.left > 0 {
      forall j ensures !Waits(w, s, j) {
        if Waits(w, s, j) { assert Claimable(w, s, j); }
      }
    }
  }

  /** A refresh on use looks at its own account only: due by the same measure, then claimed if active and free. */
  lemma OnUseDecides(worlds: seq<World>, labels: seq<Label>, k: nat, c: CallId, a: OnUseAct)
    requires IsRun(worlds, labels) && k < |labels| && labels[k] == Label(c, OfUse(a))
    ensures c in worlds[k].calls && worlds[k].calls[c].OnUse? && c in worlds[k + 1].calls
    ensures
      var (w, v, call, next) := (worlds[k], worlds[k + 1], worlds[k].calls[c], worlds[k + 1].calls[c]);
      var (id, window) := (call.accountId, call.window);
      && v.accounts == w.accounts && v.store == w.store
      && (id !in w.accounts ==> next == if a.CheckDue? then Ended else LeftAlone(id, window))
      && (id in w.accounts ==>
            var row := w.accounts[id];
            if a.CheckDue? then
              next == if row.status == Active && row.expiresAt.Some? && row.expiresAt.value < w.clock + window
                      then OnUse(id, window, true) else LeftAlone(id, window)
            else
              next == if row.status == Active && id !in w.locks
                      then Refreshing(Sweep(Service, window, 0, [id], Report(0, 0, 0, 0)), id, row.provider,
                                      row.accountRef, w.clock, Held)
                      else LeftAlone(id, window))
      && v.locks == if next.Refreshing? then w.locks[id := c] else w.locks
  {
    assert StepAt(worlds, labels, k);
  }

  /** Call `call` took hold of its account at step `k`. */
  ghost predicate ClaimedAt(worlds: seq<World>, labels: seq<Label>, k: nat, c: CallId, call: Call) {
    && k < |labels| < |worlds| && call.Refreshing? && labels[k].caller == c && c in worlds[k].calls
    && var (w, s, id) := (worlds[k], call.sweep, call.id);
       && call.began == w.clock && id !in w.locks && id in w.accounts && w.accounts[id].status == Active
       && call.provider == w.accounts[id].provider && call.accountRef == w.accounts[id].accountRef
       && if labels[k] == Label(c, OfSweep(Claim(id))) then
            && w.calls[c].Sweeping?
            && var was := w.calls[c].sweep;
               && was.left > 0 && s == was.(left := was.left - 1, attempted := was.attempted + [id])
               && Waits(w, was, id)
               && forall j | Waits(w, was, j) :: w.accounts[id].expiresAt.value <= w.accounts[j].expiresAt.value
          else
            && labels[k] == Label(c, OfUse(ClaimOnUse)) && w.calls[c] == OnUse(id, s.window, true)
            && s == Sweep(Service, s.window, 0, [id], Report(0, 0, 0, 0))
  }

  /** Whatever a call refreshes it claimed, as that account, when it was active and free: on use by name, in a sweep
      as the one of those waiting that expires first. */
  lemma {:induction false} ClaimedFrom(worlds: seq<World>, labels: seq<Label>, n: nat, c: CallId) returns (k: nat)
    requires IsRun(worlds, labels) && n <= |labels| && c in worlds[n].calls && worlds[n].calls[c].Refreshing?
    ensures k < n && ClaimedAt(worlds, labels, k, c, worlds[n].calls[c])
  {
    k := LastMove(worlds, labels, n, c);
    assert StepAt(worlds, labels, k);
    if labels[k].act.OfRefresh? {
      k := ClaimedFrom(worlds, labels, k, c);
    } else if labels[k].act.OfSweep? {
      ClaimTakes(worlds, labels, k, c, labels[k].act.sweep.id);
    } else {
      OnUseDecides(worlds, labels, k, c, ClaimOnUse);
      assert k > 0 && worlds[k].calls[c].due;
    }
  }

  // ---------------------------------------------------------------- disconnect

  /** Where a disconnect goes on: an account already revoked is done, any other is withdrawn by its own scope. */
  lemma FindDecides(worlds: seq<World>, labels: seq<Label>, k: nat, c: CallId)
    requires IsRun(worlds, labels) && k < |labels| && labels[k] == Label(c, OfDisconnect(FindAccount))
    ensures c in worlds[k].calls && worlds[k].calls[c].Disconnecting? && c in worlds[k + 1].calls
    ensures
      var (w, next, id) := (worlds[k], worlds[k + 1].calls[c], worlds[k].calls[c].accountId);
      next == if id !in w.accounts then Ended
              else if w.accounts[id].status == AccountStatus.Revoked then DisconnectDone(id)
              else Disconnecting(id, Found(w.accounts[id].provider, w.accounts[id].accountRef))
  {
    assert StepAt(worlds, labels, k);
  }

  /** The withdrawal kills what the scope has; that it has nothing is no obstacle, a failing port is. */
  lemma WithdrawDecides(worlds: seq<World>, labels: seq<Label>, k: nat, c: CallId, injected: Option<StoreFailure>)
    requires IsRun(worlds, labels) && k < |labels| && labels[k] == Label(c, OfDisconnect(Withdraw(injected)))
    ensures c in worlds[k].calls && worlds[k].calls[c].Disconnecting? && worlds[k].calls[c].withdrawal.Found?
    ensures c in worlds[k + 1].calls
    ensures
      var (w, v, call) := (worlds[k], worlds[k + 1], worlds[k].calls[c]);
      var s := Scope(w.company, call.withdrawal.provider, call.withdrawal.accountRef);
      && v.accounts == w.accounts
      && v.calls[c] == (if injected.None? || injected == Some(NotFound) then Disconnecting(call.accountId, Withdrawn)
                        else Ended)
      && (injected.Some? || s !in w.store || w.store[s].Never? ==> v.store == w.store)
      && (injected.None? && s in w.store && !w.store[s].Never? ==> v.store == w.store[s := Dead])
  {
    assert StepAt(worlds, labels, k);
  }

  /** The last statement revokes a row that is pending or active, and leaves any other. */
  lemma RevokeWrites(worlds: seq<World>, labels: seq<Label>, k: nat, c: CallId)
    requires IsRun(worlds, labels) && k < |labels| && labels[k] == Label(c, OfDisconnect(MarkRevoked))
    ensures c in worlds[k].calls && worlds[k].calls[c].Disconnecting? && c in worlds[k + 1].calls
    ensures
      var (w, v, id) := (worlds[k], worlds[k + 1], worlds[k].calls[c].accountId);
      && v.calls[c] == DisconnectDone(id) && v.store == w.store
      && if id in w.accounts && (w.accounts[id].status == Pending || w.accounts[id].status == Active) then
           var a := w.accounts[id];
           v.accounts == w.accounts[id := Account(a.provider, a.accountRef, AccountStatus.Revoked, a.scopes, None,
                                                  a.expiresAt, a.refreshedAt)]
         else v.accounts == w.accounts
  {
    assert StepAt(worlds, labels, k);
  }

  /** Step `f` found the account as it was. */
  ghost predicate FoundAt(worlds: seq<World>, labels: seq<Label>, f: nat, c: CallId, id: AccountId) {
    f < |labels| < |worlds| && labels[f] == Label(c, OfDisconnect(FindAccount)) && id in worlds[f].accounts
  }

  /** Step `k` withdrew the credential of the account as step `f` found it; if its scope has none any more, or the
      port says that it never had. */
  ghost predicate WithdrawnAt(worlds: seq<World>, labels: seq<Label>, f: nat, k: nat, c: CallId, id: AccountId) {
    && f < k && FoundAt(worlds, labels, f, c, id) && k < |labels|
    && var s := Scope(worlds[k].company, worlds[f].accounts[id].provider, worlds[f].accounts[id].accountRef);
       || (labels[k] == Label(c, OfDisconnect(Withdraw(None)))
           && (s in worlds[k + 1].store ==> !worlds[k + 1].store[s].Live?))
       || labels[k] == Label(c, OfDisconnect(Withdraw(Some(NotFound))))
  }

  lemma WithdrawnFrom(worlds: seq<World>, labels: seq<Label>, n: nat, c: CallId) returns (f: nat, k: nat)
    requires IsRun(worlds, labels) && n <= |labels| && c in worlds[n].calls
    requires worlds[n].calls[c].Disconnecting? && worlds[n].calls[c].withdrawal.Withdrawn?
    ensures k < n && WithdrawnAt(worlds, labels, f, k, c, worlds[n].calls[c].accountId)
  {
    k := LastMove(worlds, labels, n, c);
    assert StepAt(worlds, labels, k);
    assert labels[k].act.OfDisconnect? && labels[k].act.disconnect.Withdraw?;
    WithdrawDecides(worlds, labels, k, c, labels[k].act.disconnect.revokeFailure);
    f := LastMove(worlds, labels, k, c);
    assert StepAt(worlds, labels, f);
    FindDecides(worlds, labels, f, c);
  }

  /** An Ok of a disconnect found its account revoked already; or it withdrew the credential of the account it found
      and then revoked the row, with its verifier, if that was still pending or active. */
  lemma DisconnectedFrom(worlds: seq<World>, labels: seq<Label>, n: nat, c: CallId) returns (f: nat, k: nat, m: nat)
    requires IsRun(worlds, labels) && n <= |labels| && c in worlds[n].calls && worlds[n].calls[c].DisconnectDone?
    ensures
      var id := worlds[n].calls[c].accountId;
      || (f < n && FoundAt(worlds, labels, f, c, id) && worlds[f].accounts[id].status == AccountStatus.Revoked)
      || (&& k < m < n && WithdrawnAt(worlds, labels, f, k, c, id) && labels[m] == Label(c, OfDisconnect(MarkRevoked))
          && (id in worlds[m].accounts ==>
                && id in worlds[m + 1].accounts
                && var (a, b) := (worlds[m].accounts[id], worlds[m + 1].accounts[id]);
                   if a.status == Pending || a.status == Active
                   then b == Account(a.provider, a.accountRef, AccountStatus.Revoked, a.scopes, None, a.expiresAt,
                                     a.refreshedAt)
                   else b == a))
  {
    m := LastMove(worlds, labels, n, c);
    assert StepAt(worlds, labels, m);
    assert labels[m].act.OfDisconnect?;
    if labels[m].act.disconnect.FindAccount? {
      FindDecides(worlds, labels, m, c);
      f, k := m, m;
    } else {
      RevokeWrites(worlds, labels, m, c);
      f, k := WithdrawnFrom(worlds, labels, m, c);
    }
  }
}
