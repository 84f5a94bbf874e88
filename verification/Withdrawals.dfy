/** What a disconnect that answered Ok leaves in the store: exactly when its account's scope is live. */
module Withdrawals {
  import opened Outcomes
  import opened CredentialStore
  import opened AccountRows
  import opened AccountLane
  import opened AccountInvariants
  import opened AccountResults

  predicate IsLive(w: World, s: Scope) {
    EntryAt(w.store, s).Live?
  }

  /** A revocation of scope `s` that the port carries out. */
  predicate Withdraws(w: World, l: Label, s: Scope) {
    && Enabled(w, l) && l.act == OfDisconnect(Withdraw(None))
    && ScopeOf(w, w.calls[l.caller].withdrawal.provider, w.calls[l.caller].withdrawal.accountRef) == s
  }

  /** A first store write of a completion of scope `s`, unless the scope is live already. */
  predicate Issues(w: World, l: Label, s: Scope) {
    && Enabled(w, l) && l.act == OfComplete(IssueCredential(None))
    && ScopeOf(w, w.calls[l.caller].provider, w.calls[l.caller].stage.accountRef) == s
  }

  lemma LiveByStep(w: World, l: Label, s: Scope)
    requires Enabled(w, l)
    ensures IsLive(Apply(w, l), s) <==> Issues(w, l, s) || (IsLive(w, s) && !Withdraws(w, l, s))
  {
  }

  // ---------------------------------------------------------------- over any path

  ghost predicate NotWithdrawn(worlds: seq<World>, labels: seq<Label>, i: nat, n: nat, s: Scope)
    requires n <= |labels| < |worlds|
  {
    forall k | i <= k < n :: !Withdraws(worlds[k], labels[k], s)
  }

  /** An issue since `i`, and no withdrawal after it. */
  ghost predicate Reissued(worlds: seq<World>, labels: seq<Label>, i: nat, n: nat, s: Scope)
    requires n <= |labels| < |worlds|
  {
    exists k :: i <= k < n && Issues(worlds[k], labels[k], s) && NotWithdrawn(worlds, labels, k + 1, n, s)
  }

  ghost predicate LiveSince(worlds: seq<World>, labels: seq<Label>, i: nat, n: nat, s: Scope)
    requires i <= n <= |labels| < |worlds|
  {
    (IsLive(worlds[i], s) && NotWithdrawn(worlds, labels, i, n, s)) || Reissued(worlds, labels, i, n, s)
  }

  lemma LiveSinceStep(worlds: seq<World>, labels: seq<Label>, i: nat, n: nat, s: Scope)
    requires i <= n < |labels| < |worlds|
    ensures LiveSince(worlds, labels, i, n + 1, s) <==>
      Issues(worlds[n], labels[n], s) || (LiveSince(worlds, labels, i, n, s) && !Withdraws(worlds[n], labels[n], s))
  {
    if Issues(worlds[n], labels[n], s) {
      assert NotWithdrawn(worlds, labels, n + 1, n + 1, s);
    }
    if Reissued(worlds, labels, i, n, s) && !Withdraws(worlds[n], labels[n], s) {
      var k :| i <= k < n && Issues(worlds[k], labels[k], s) && NotWithdrawn(worlds, labels, k + 1, n, s);
      assert NotWithdrawn(worlds, labels, k + 1, n + 1, s);
    }
    if Reissued(worlds, labels, i, n + 1, s) && !Issues(worlds[n], labels[n], s) {
      var k :| i <= k < n + 1 && Issues(worlds[k], labels[k], s) && NotWithdrawn(worlds, labels, k + 1, n + 1, s);
      assert NotWithdrawn(worlds, labels, k + 1, n, s);
    }
  }

  /** A scope is live exactly when it has been since, or was issued since, with no withdrawal after. */
  lemma {:induction false} LiveExactly(worlds: seq<World>, labels: seq<Label>, i: nat, n: nat, s: Scope)
    requires IsPath(worlds, labels) && i <= n <= |labels|
    ensures IsLive(worlds[n], s) <==> LiveSince(worlds, labels, i, n, s)
    decreases n - i
  {
    if n == i {
      assert NotWithdrawn(worlds, labels, i, n, s);
    } else {
      LiveExactly(worlds, labels, i, n - 1, s);
      assert StepAt(worlds, labels, n - 1);
      LiveByStep(worlds[n - 1], labels[n - 1], s);
      LiveSinceStep(worlds, labels, i, n - 1, s);
    }
  }

  /** After a withdrawal the scope is live if and only if a completion issued it since, with no further
      withdrawal after that. */
  lemma AfterWithdrawal(worlds: seq<World>, labels: seq<Label>, i: nat, n: nat, s: Scope)
    requires IsPath(worlds, labels) && i < n <= |labels| && Withdraws(worlds[i], labels[i], s)
    ensures IsLive(worlds[n], s) <==> Reissued(worlds, labels, i + 1, n, s)
  {
    assert StepAt(worlds, labels, i);
    LiveByStep(worlds[i], labels[i], s);
    LiveExactly(worlds, labels, i + 1, n, s);
  }

  // ---------------------------------------------------------------- what an Ok of a disconnect rests on

  /** It found its account, of scope `s`, revoked already, and never asked the store. */
  predicate SawRevoked(w: World, l: Label, d: CallId, id: AccountId, s: Scope) {
    && l == Label(d, OfDisconnect(FindAccount)) && Enabled(w, l) && w.calls[d].accountId == id
    && id in w.accounts && w.accounts[id].status == AccountStatus.Revoked
    && s == ScopeOf(w, w.accounts[id].provider, w.accounts[id].accountRef)
  }

  /** The port revoked scope `s` for it, or answered that there never was a credential. */
  predicate Withdrew(w: World, l: Label, d: CallId, id: AccountId, s: Scope) {
    && l.caller == d && l.act.OfDisconnect? && l.act.disconnect.Withdraw? && Enabled(w, l) && w.calls[d].accountId == id
    && (l.act.disconnect.revokeFailure.None? || l.act.disconnect.revokeFailure == Some(NotFound))
    && s == ScopeOf(w, w.calls[d].withdrawal.provider, w.calls[d].withdrawal.accountRef)
  }

  predicate RestsOn(w: World, l: Label, d: CallId, id: AccountId, s: Scope) {
    SawRevoked(w, l, d, id, s) || Withdrew(w, l, d, id, s)
  }

  predicate Past(call: Call) {
    (call.Disconnecting? && call.withdrawal.Withdrawn?) || call.DisconnectDone?
  }

  /** The step that gets a disconnect past the store. */
  lemma GetsPast(w: World, l: Label) returns (s: Scope)
    requires Enabled(w, l) && !Callless(l.act) && Past(NextCall(w, l))
    requires l.caller in w.calls ==> !Past(w.calls[l.caller])
    ensures RestsOn(w, l, l.caller, NextCall(w, l).accountId, s)
  {
    var id := w.calls[l.caller].accountId;
    if l.act.disconnect.FindAccount? {
      s := ScopeOf(w, w.accounts[id].provider, w.accounts[id].accountRef);
    } else {
      s := ScopeOf(w, w.calls[l.caller].withdrawal.provider, w.calls[l.caller].withdrawal.accountRef);
    }
  }

  lemma PastKeepsAccount(w: World, l: Label)
    requires Enabled(w, l) && !Callless(l.act) && l.caller in w.calls && Past(w.calls[l.caller]) && Past(NextCall(w, l))
    ensures NextCall(w, l).accountId == w.calls[l.caller].accountId
  {
  }

  lemma {:induction false} PastRestsOn(worlds: seq<World>, labels: seq<Label>, n: nat, d: CallId)
    returns (i: nat, s: Scope)
    requires IsRun(worlds, labels) && n <= |labels| && d in worlds[n].calls && Past(worlds[n].calls[d])
    ensures i < n && RestsOn(worlds[i], labels[i], d, worlds[n].calls[d].accountId, s)
  {
    assert n > 0;
    assert StepAt(worlds, labels, n - 1);
    var (w, l) := (worlds[n - 1], labels[n - 1]);
    if d in w.calls && Past(w.calls[d]) {
      if d == l.caller && !Callless(l.act) { PastKeepsAccount(w, l); }
      i, s := PastRestsOn(worlds, labels, n - 1, d);
    } else {
      i := n - 1;
      s := GetsPast(w, l);
    }
  }

  /** A disconnect that answered Ok found its account revoked or had its scope revoked, at some step `i`;
      and the scope is live now exactly when it was then and has not been withdrawn since, or a completion
      has issued it since with no withdrawal after that. When the port did revoke, only the latter is left. */
  lemma DisconnectLeavesLive(worlds: seq<World>, labels: seq<Label>, n: nat, d: CallId) returns (i: nat, s: Scope)
    requires IsRun(worlds, labels) && n <= |labels| && d in worlds[n].calls && worlds[n].calls[d].DisconnectDone?
    ensures i < n && RestsOn(worlds[i], labels[i], d, worlds[n].calls[d].accountId, s)
    ensures ReadAs(worlds[i], worlds[n].calls[d].accountId, s.provider, s.accountRef)
    ensures IsLive(worlds[n], s) <==> LiveSince(worlds, labels, i + 1, n, s)
    ensures Withdraws(worlds[i], labels[i], s) ==> (IsLive(worlds[n], s) <==> Reissued(worlds, labels, i + 1, n, s))
  {
    i, s := PastRestsOn(worlds, labels, n, d);
    RunSound(worlds, labels, i);
    assert CallHolds(worlds[i], worlds[i].calls[d]);
    LiveExactly(worlds, labels, i + 1, n, s);
    if Withdraws(worlds[i], labels[i], s) { AfterWithdrawal(worlds, labels, i, n, s); }
  }

  // ---------------------------------------------------------------- what a caller can see to

  /** A completion that may still issue a credential for scope `s`. */
  predicate Concerns(w: World, call: Call, s: Scope) {
    && call.Completing? && call.provider == s.provider
    && if call.stage.StateVerified?
       then
         || call.accountId !in w.issued
         || (call.accountId in w.accounts && w.accounts[call.accountId].accountRef == s.accountRef)
       else call.stage.accountRef == s.accountRef
  }

  ghost predicate NobodyConcerned(w: World, s: Scope) {
    forall c | c in w.calls :: !Concerns(w, w.calls[c], s)
  }

  /** This step begins no completion of scope `s`. */
  predicate BeginsNone(w: World, l: Label, s: Scope) {
    l.act.Begin? ==> !Concerns(w, l.act.first, s)
  }

  ghost predicate BeginsNoneFrom(worlds: seq<World>, labels: seq<Label>, i: nat, s: Scope)
    requires |labels| < |worlds|
  {
    forall k | i <= k < |labels| :: BeginsNone(worlds[k], labels[k], s)
  }

  lemma OtherUnconcerned(w: World, v: World, call: Call, s: Scope)
    requires AccountsMove(w, v) && !Concerns(w, call, s)
    ensures !Concerns(v, call, s)
  {
    if call.Completing? { assert IdMoves(w, v, call.accountId); }
  }

  lemma OwnUnconcerned(w: World, l: Label, s: Scope)
    requires Enabled(w, l) && !Callless(l.act) && BeginsNone(w, l, s)
    requires RowsHold(w) && (l.caller in w.calls ==> !Concerns(w, w.calls[l.caller], s))
    ensures !Concerns(w, NextCall(w, l), s)
  {
  }

  lemma NobodyConcernedKept(w: World, l: Label, s: Scope)
    requires Inv(w) && Enabled(w, l) && NobodyConcerned(w, s) && BeginsNone(w, l, s)
    ensures NobodyConcerned(Apply(w, l), s)
  {
    var v := Apply(w, l);
    StepKeeps(w, l);
    if !Callless(l.act) { OwnUnconcerned(w, l, s); }
    forall c | c in v.calls ensures !Concerns(v, v.calls[c], s) {
      OtherUnconcerned(w, v, v.calls[c], s);
    }
  }

  lemma UnconcernedStaysDead(w: World, l: Label, s: Scope)
    requires Enabled(w, l) && NobodyConcerned(w, s) && s.company == w.company && !IsLive(w, s)
    ensures !IsLive(Apply(w, l), s)
  {
    LiveByStep(w, l, s);
  }

  /** With no completion of the scope in flight and none begun later, a scope that is not live never
      becomes live again, whatever else runs. */
  lemma {:induction false} StaysDead(worlds: seq<World>, labels: seq<Label>, i: nat, n: nat, s: Scope)
    requires IsRun(worlds, labels) && i <= n <= |labels| && s.company == worlds[i].company
    requires !IsLive(worlds[i], s) && NobodyConcerned(worlds[i], s) && BeginsNoneFrom(worlds, labels, i, s)
    ensures !IsLive(worlds[n], s) && NobodyConcerned(worlds[n], s) && s.company == worlds[n].company
    decreases n - i
  {
    if n == i {
    } else {
      StaysDead(worlds, labels, i, n - 1, s);
      RunSound(worlds, labels, n - 1);
      assert StepAt(worlds, labels, n - 1) && BeginsNone(worlds[n - 1], labels[n - 1], s);
      NobodyConcernedKept(worlds[n - 1], labels[n - 1], s);
      UnconcernedStaysDead(worlds[n - 1], labels[n - 1], s);
    }
  }

  /** So a disconnect keeps its promise if no completion of its account is in flight when the port revokes,
      and none is begun afterwards. */
  lemma DisconnectHolds(worlds: seq<World>, labels: seq<Label>, i: nat, n: nat, s: Scope)
    requires IsRun(worlds, labels) && i < n <= |labels| && Withdraws(worlds[i], labels[i], s)
    requires NobodyConcerned(worlds[i], s) && BeginsNoneFrom(worlds, labels, i, s)
    ensures !IsLive(worlds[n], s)
  {
    assert StepAt(worlds, labels, i) && BeginsNone(worlds[i], labels[i], s);
    LiveByStep(worlds[i], labels[i], s);
    RunSound(worlds, labels, i);
    NobodyConcernedKept(worlds[i], labels[i], s);
    StaysDead(worlds, labels, i + 1, n, s);
  }
}
