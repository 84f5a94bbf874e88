/** Which completions can still put a credential into a scope that holds none: the exact other side of
    `Withdrawals.DisconnectHolds`. */
module Reissues {
  import opened Outcomes
  import opened CredentialStore
  import opened AccountRows
  import opened IdentityChecks
  import opened AccountLane
  import opened AccountInvariants
  import opened AccountResults
  import opened Withdrawals
  import EndpointGuard

  // ---------------------------------------------------------------- identities that can pass

  /** Some identity passes for this account: its address has no outer white space, or any address will do. */
  predicate Passable(b: Binding, accountRef: string) {
    b.bypass || Core(accountRef, 0, |accountRef|)
  }

  lemma PassableExactly(b: Binding, accountRef: string)
    ensures Passable(b, accountRef) <==> exists e :: Passes(e, b, accountRef)
  {
    if Passable(b, accountRef) {
      var e := Passing(b, accountRef);
    }
    forall e | Passes(e, b, accountRef) ensures Passable(b, accountRef) {
      OnlyPassable(e, b, accountRef);
    }
  }

  lemma OnlyPassable(e: Evidence, b: Binding, accountRef: string)
    requires Passes(e, b, accountRef)
    ensures Passable(b, accountRef)
  {
    if !b.bypass {
      AcceptedAddresses(e.identity, accountRef, b.bypass);
      var email := e.identity.email.value;
      var i, j :| Core(email, i, j) && EndpointGuard.SameText(email[i..j], accountRef);
      CoreOfSame(email[i..j], accountRef);
    }
  }

  /** Text that neither begins nor ends in white space does so in any letter case. */
  lemma CoreOfSame(a: string, b: string)
    requires a != "" && EndpointGuard.SameText(a, b) && !IsWhite(a[0]) && !IsWhite(a[|a| - 1])
    ensures Core(b, 0, |b|)
  {
    assert EndpointGuard.SameLetter(a[0], b[0]) && EndpointGuard.SameLetter(a[|a| - 1], b[|b| - 1]);
  }

  lemma Passing(b: Binding, accountRef: string) returns (e: Evidence)
    requires Passable(b, accountRef)
    ensures Passes(e, b, accountRef)
  {
    var email := if b.bypass then "x" else accountRef;
    e := Evidence(IdentityClaims(Some(email), None, Some(b.clientId), Some(b.nonce)), None);
    TrimOfCore(email, 0, |email|);
    assert email[0..|email|] == email;
  }

  // ---------------------------------------------------------------- completions that can still issue

  /** The pending row this completion would find, or has found, still lets it through. */
  predicate RowLetsPass(w: World, call: Call, s: Scope)
    requires call.Completing?
  {
    || call.accountId !in w.issued
    || (&& call.accountId in w.accounts && w.accounts[call.accountId].status == Pending
        && SameAccount(w.accounts[call.accountId], s.provider, s.accountRef)
        && VerifierLetsPass(w, call))
  }

  predicate VerifierLetsPass(w: World, call: Call)
    requires call.Completing?
  {
    call.binding.pkceS256 ==>
      && call.accountId in w.accounts
      && w.accounts[call.accountId].verifier.Some? && w.accounts[call.accountId].verifier.value != ""
  }

  /** A completion of scope `s` that has not come to issue, and can. */
  predicate MayIssue(w: World, call: Call, s: Scope) {
    && call.Completing? && call.provider == s.provider
    && match call.stage
       case StateVerified => RowLetsPass(w, call, s) && Passable(call.binding, s.accountRef)
       case AccountRead(ref) => ref == s.accountRef && VerifierLetsPass(w, call) && Passable(call.binding, ref)
       case VerifierRead(ref, _) => ref == s.accountRef && Passable(call.binding, ref)
       case Exchanged(ref, _, _, _) => ref == s.accountRef && Passable(call.binding, ref)
       case Identified(ref, _, _, _, _) => ref == s.accountRef
       case Carried(ref, _, _, _, _) => ref == s.accountRef
       case _ => false
  }

  ghost predicate NobodyMayIssue(w: World, s: Scope) {
    forall c | c in w.calls :: !MayIssue(w, w.calls[c], s)
  }

  // ---------------------------------------------------------------- whoever cannot, never can

  lemma OtherMayNot(w: World, v: World, call: Call, s: Scope)
    requires RowsHold(w) && RowsHold(v) && AccountsMove(w, v) && CallHolds(w, call) && !MayIssue(w, call, s)
    requires call.Completing? && call.accountId in v.accounts && v.accounts[call.accountId].status == Pending ==>
               call.accountId !in w.accounts || v.accounts[call.accountId] == w.accounts[call.accountId]
    ensures !MayIssue(v, call, s)
  {
    if call.Completing? { assert IdMoves(w, v, call.accountId); }
  }

  lemma OwnMayNot(w: World, l: Label, s: Scope)
    requires Inv(w) && Enabled(w, l) && !Callless(l.act) && BeginsNone(w, l, s)
    requires l.caller in w.calls ==> !MayIssue(w, w.calls[l.caller], s)
    ensures !MayIssue(w, NextCall(w, l), s)
  {
    if l.act.OfComplete? && l.act.complete.CheckIdentity? {
      var call := w.calls[l.caller];
      if Passes(l.act.complete.evidence, call.binding, call.stage.accountRef) {
        OnlyPassable(l.act.complete.evidence, call.binding, call.stage.accountRef);
      }
    }
  }

  lemma NobodyMayIssueKept(w: World, l: Label, s: Scope)
    requires Inv(w) && Enabled(w, l) && NobodyMayIssue(w, s) && BeginsNone(w, l, s)
    ensures NobodyMayIssue(Apply(w, l), s)
  {
    var v := Apply(w, l);
    StepKeeps(w, l);
    if !Callless(l.act) {
      OwnMayNot(w, l, s);
    }
    forall c | c in v.calls ensures !MayIssue(v, v.calls[c], s) {
      PendingRowsStand(w, l, v.calls[c]);
      if c == l.caller && !Callless(l.act) {
        MayNotAfter(w, l, s);
      } else {
        assert CallHolds(w, w.calls[c]);
        OtherMayNot(w, v, v.calls[c], s);
      }
    }
  }

  lemma PendingRowsStand(w: World, l: Label, call: Call)
    requires Inv(w) && Enabled(w, l)
    ensures
      call.Completing? ==>
        var (v, id) := (Apply(w, l), call.accountId);
        id in v.accounts && v.accounts[id].status == Pending ==> id !in w.accounts || v.accounts[id] == w.accounts[id]
  {
    RowsAfterStep(w, l);
    if call.Completing? { assert IdMoves(w, Apply(w, l), call.accountId); }
  }

  lemma MayNotAfter(w: World, l: Label, s: Scope)
    requires Inv(w) && Enabled(w, l) && !Callless(l.act) && !MayIssue(w, NextCall(w, l), s)
    ensures !MayIssue(Apply(w, l), NextCall(w, l), s)
  {
  }

  lemma {:induction false} StaysDeadFor(worlds: seq<World>, labels: seq<Label>, i: nat, n: nat, s: Scope)
    requires IsRun(worlds, labels) && i <= n <= |labels| && s.company == worlds[i].company
    requires !IsLive(worlds[i], s) && NobodyMayIssue(worlds[i], s) && BeginsNoneFrom(worlds, labels, i, s)
    ensures !IsLive(worlds[n], s) && NobodyMayIssue(worlds[n], s) && s.company == worlds[n].company
    decreases n - i
  {
    if n == i {
    } else {
      StaysDeadFor(worlds, labels, i, n - 1, s);
      RunSound(worlds, labels, n - 1);
      assert StepAt(worlds, labels, n - 1) && BeginsNone(worlds[n - 1], labels[n - 1], s);
      NobodyMayIssueKept(worlds[n - 1], labels[n - 1], s);
      LiveByStep(worlds[n - 1], labels[n - 1], s);
      OnlyMayIssueIssues(worlds[n - 1], labels[n - 1], s);
    }
  }

  lemma OnlyMayIssueIssues(w: World, l: Label, s: Scope)
    requires NobodyMayIssue(w, s)
    ensures !Issues(w, l, s)
  {
  }

  // ---------------------------------------------------------------- whoever can, has a way

  const GRANT := TokenResponse("token", None, Some(1), None)

  /** Steps a completion still has to take until it has issued. */
  function StepsLeft(w: World, call: Call): nat
    requires call.Completing?
  {
    match call.stage
    case StateVerified => if call.accountId in w.issued then 6 else 7
    case AccountRead(_) => 5
    case VerifierRead(_, _) => 4
    case Exchanged(_, _, _, _) => 3
    case Identified(_, _, _, _, _) => 2
    case _ => 1
  }

  /** An act that gets the completion one step on, with an answer that lets it through. */
  lemma Onward(w: World, c: CallId, s: Scope) returns (a: CompleteAct)
    requires c in w.calls && MayIssue(w, w.calls[c], s) && !w.calls[c].stage.Carried?
    requires w.calls[c].stage.StateVerified? ==> w.calls[c].accountId in w.issued
    ensures Enabled(w, Label(c, OfComplete(a))) && a != Activate
    ensures
      var next := CompleteNext(w, w.calls[c], a);
      MayIssue(w, next, s) && StepsLeft(w, next) < StepsLeft(w, w.calls[c])
  {
    var call := w.calls[c];
    if call.stage.StateVerified? {
      a := ReadAccount;
    } else if call.stage.AccountRead? {
      a := ReadVerifier;
    } else if call.stage.VerifierRead? {
      a := ExchangeCode(Some(GRANT));
    } else if call.stage.Exchanged? {
      var e := Passing(call.binding, call.stage.accountRef);
      a := CheckIdentity(e);
    } else {
      a := CarryRefresh(Some(Transport));
    }
  }

  lemma OnwardApplied(w: World, c: CallId, a: CompleteAct, s: Scope)
    requires Enabled(w, Label(c, OfComplete(a))) && a != Activate && MayIssue(w, CompleteNext(w, w.calls[c], a), s)
    ensures
      var v := Apply(w, Label(c, OfComplete(a)));
      && c in v.calls && v.calls[c] == CompleteNext(w, w.calls[c], a) && MayIssue(v, v.calls[c], s)
      && v.company == w.company && StepsLeft(v, v.calls[c]) == StepsLeft(w, CompleteNext(w, w.calls[c], a))
  {
  }

  /** A completion whose account is yet to be authorized. */
  lemma Authorizes(w: World, c: CallId, s: Scope) returns (l: Label)
    requires c in w.calls && MayIssue(w, w.calls[c], s)
    requires w.calls[c].stage.StateVerified? && w.calls[c].accountId !in w.issued
    ensures Enabled(w, l) && l.act.Authorize?
    ensures
      var v := Apply(w, l);
      && c in v.calls && v.calls[c] == w.calls[c] && MayIssue(v, v.calls[c], s) && v.company == w.company
      && StepsLeft(v, v.calls[c]) < StepsLeft(w, w.calls[c])
  {
    var row := NewPending(s.provider, s.accountRef, "", Some("verifier"));
    l := Label(c, Authorize(w.calls[c].accountId, row, w.accounts.Keys));
  }

  predicate NoBegins(labels: seq<Label>, i: nat) {
    forall k | i <= k < |labels| :: !labels[k].act.Begin?
  }

  lemma NoBeginsBegin(worlds: seq<World>, labels: seq<Label>, i: nat, s: Scope)
    requires NoBegins(labels, i) && |labels| < |worlds|
    ensures BeginsNoneFrom(worlds, labels, i, s)
  {
  }

  lemma IssuesAtLast(worlds: seq<World>, labels: seq<Label>, c: CallId, s: Scope)
    returns (ws: seq<World>, ls: seq<Label>)
    requires IsPath(worlds, labels) && c in worlds[|labels|].calls && s.company == worlds[|labels|].company
    requires MayIssue(worlds[|labels|], worlds[|labels|].calls[c], s) && worlds[|labels|].calls[c].stage.Carried?
    ensures Extends(worlds, labels, ws, ls) && NoBegins(ls, |labels|) && IsLive(ws[|ls|], s)
  {
    ws, ls := Extend(worlds, labels, Label(c, OfComplete(IssueCredential(None))));
    LiveByStep(worlds[|labels|], Label(c, OfComplete(IssueCredential(None))), s);
  }

  /** A completion that can still issue has a way to make its scope live, with no other call in it. */
  lemma {:induction false} MakesLive(worlds: seq<World>, labels: seq<Label>, c: CallId, s: Scope)
    returns (ws: seq<World>, ls: seq<Label>)
    requires IsPath(worlds, labels) && c in worlds[|labels|].calls && s.company == worlds[|labels|].company
    requires MayIssue(worlds[|labels|], worlds[|labels|].calls[c], s)
    ensures Extends(worlds, labels, ws, ls) && NoBegins(ls, |labels|) && IsLive(ws[|ls|], s)
    decreases StepsLeft(worlds[|labels|], worlds[|labels|].calls[c])
  {
    var w := worlds[|labels|];
    if w.calls[c].stage.Carried? {
      ws, ls := IssuesAtLast(worlds, labels, c, s);
    } else {
      var l;
      if w.calls[c].stage.StateVerified? && w.calls[c].accountId !in w.issued {
        l := Authorizes(w, c, s);
      } else {
        var a := Onward(w, c, s);
        OnwardApplied(w, c, a, s);
        l := Label(c, OfComplete(a));
      }
      ws, ls := Extend(worlds, labels, l);
      ghost var ls1 := ls;
      ws, ls := MakesLive(ws, ls, c, s);
      assert forall k | |labels| <= k < |ls1| :: ls[k] == l;
    }
  }

  /** Some continuation makes the scope live, without beginning another completion of it. */
  ghost predicate MayBecomeLive(worlds: seq<World>, labels: seq<Label>, s: Scope) {
    exists ws: seq<World>, ls: seq<Label> ::
      IsRun(ws, ls) && worlds <= ws && labels <= ls && BeginsNoneFrom(ws, ls, |labels|, s) && IsLive(ws[|ls|], s)
  }

  lemma SomebodyMakesLive(worlds: seq<World>, labels: seq<Label>, c: CallId, s: Scope)
    requires IsRun(worlds, labels) && s.company == worlds[|labels|].company
    requires c in worlds[|labels|].calls && MayIssue(worlds[|labels|], worlds[|labels|].calls[c], s)
    ensures MayBecomeLive(worlds, labels, s)
  {
    var ws, ls := MakesLive(worlds, labels, c, s);
    NoBeginsBegin(ws, ls, |labels|, s);
    assert ws[0] == worlds[0];
  }

  lemma NobodyMakesLive(worlds: seq<World>, labels: seq<Label>, s: Scope, ws: seq<World>, ls: seq<Label>)
    requires IsRun(worlds, labels) && s.company == worlds[|labels|].company
    requires !IsLive(worlds[|labels|], s) && NobodyMayIssue(worlds[|labels|], s)
    requires IsRun(ws, ls) && worlds <= ws && labels <= ls && BeginsNoneFrom(ws, ls, |labels|, s)
    ensures !IsLive(ws[|ls|], s)
  {
    assert ws[|labels|] == worlds[|labels|];
    StaysDeadFor(ws, ls, |labels|, |ls|, s);
  }

  /** A scope that is not live can become so, without another completion of it being begun, if and only if one
      is in flight that has not come to issue and can: its row, while it still needs it, is pending with its
      verifier, and some identity passes for its account. */
  lemma DeadForGoodExactly(worlds: seq<World>, labels: seq<Label>, s: Scope)
    requires IsRun(worlds, labels) && s.company == worlds[|labels|].company && !IsLive(worlds[|labels|], s)
    ensures MayBecomeLive(worlds, labels, s) <==> !NobodyMayIssue(worlds[|labels|], s)
  {
    if NobodyMayIssue(worlds[|labels|], s) {
      forall ws: seq<World>, ls: seq<Label>
        | IsRun(ws, ls) && worlds <= ws && labels <= ls && BeginsNoneFrom(ws, ls, |labels|, s)
        ensures !IsLive(ws[|ls|], s)
      {
        NobodyMakesLive(worlds, labels, s, ws, ls);
      }
    } else {
      var c :| c in worlds[|labels|].calls && MayIssue(worlds[|labels|], worlds[|labels|].calls[c], s);
      SomebodyMakesLive(worlds, labels, c, s);
    }
  }

  /** So a revocation holds for good, as long as no completion of its account is begun later, if and only if no
      completion in flight as it is carried out may still issue. */
  lemma DisconnectHoldsExactly(worlds: seq<World>, labels: seq<Label>, s: Scope)
    requires IsRun(worlds, labels) && labels != []
    requires Withdraws(worlds[|labels| - 1], labels[|labels| - 1], s)
    ensures !IsLive(worlds[|labels|], s)
    ensures MayBecomeLive(worlds, labels, s) <==> !NobodyMayIssue(worlds[|labels|], s)
  {
    var i := |labels| - 1;
    assert StepAt(worlds, labels, i);
    LiveByStep(worlds[i], labels[i], s);
    DeadForGoodExactly(worlds, labels, s);
  }
}
