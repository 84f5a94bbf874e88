/** Reconnecting an account whose credential is still live in the store: when its refresh token survives. */
module Reconnects {
  import opened Outcomes
  import opened CredentialStore
  import opened AccountRows
  import opened IdentityChecks
  import opened AccountLane
  import opened AccountInvariants
  import opened AccountResults
  import opened CompletionRun

  // ---------------------------------------------------------------- the exact condition

  /** The provider handed out a refresh token, or the store let the completion read one. */
  predicate TokenAtHand(w: World, l: Label) {
    && Enabled(w, l) && l.act.OfComplete? && l.act.complete.CarryRefresh?
    && var call := w.calls[l.caller];
       || call.stage.response.refreshToken.Some?
       || (var read := ReadOf(OwnEntry(w, call), w.clock, l.act.complete.readFailure);
           read.Ok? && read.value.refreshToken.Some?)
  }

  predicate HasBundle(call: Call) {
    call.Completing? && (call.stage.Carried? || call.stage.MustRotate? || call.stage.InStore?)
  }

  predicate CarriesAt(w: World, l: Label, c: CallId, bundle: Bundle) {
    && l.caller == c && Enabled(w, l) && l.act.OfComplete? && l.act.complete.CarryRefresh?
    && (bundle.refreshToken.Some? <==> TokenAtHand(w, l))
  }

  lemma {:induction false} CarriedEarlier(worlds: seq<World>, labels: seq<Label>, n: nat, c: CallId) returns (k: nat)
    requires IsRun(worlds, labels) && n <= |labels| && c in worlds[n].calls && HasBundle(worlds[n].calls[c])
    ensures k < n && CarriesAt(worlds[k], labels[k], c, worlds[n].calls[c].stage.bundle)
  {
    assert n > 0;
    assert StepAt(worlds, labels, n - 1);
    if c in worlds[n - 1].calls && HasBundle(worlds[n - 1].calls[c]) {
      k := CarriedEarlier(worlds, labels, n - 1, c);
    } else {
      k := n - 1;
    }
  }

  /** What a completion leaves live in its scope has a refresh token if and only if one was at hand when it
      looked: from the provider, or readable in the store, which a credential past its expiry is not. */
  lemma TokenKeptExactly(worlds: seq<World>, labels: seq<Label>, i: nat, c: CallId) returns (k: nat)
    requires IsRun(worlds, labels) && i < |labels| && AcceptedAt(worlds, labels, i, c)
    ensures c in worlds[i + 1].calls && ReachesStore(worlds[i + 1], c) && Holds(worlds[i + 1], c)
    ensures k < i && labels[k].caller == c && labels[k].act.OfComplete? && labels[k].act.complete.CarryRefresh?
    ensures
      OwnEntry(worlds[i + 1], worlds[i + 1].calls[c]).credential.refreshToken.Some?
      <==> TokenAtHand(worlds[k], labels[k])
  {
    assert StepAt(worlds, labels, i);
    AcceptedReaches(worlds[i], labels[i]);
    k := CarriedEarlier(worlds, labels, i, c);
  }

  // ---------------------------------------------------------------- a token that is lost

  /** Reconnecting over `prior`, which carries a refresh token but has expired, with a response that brings none. */
  predicate Loses(x: Case, prior: Bundle) {
    x.Plausible() && prior.refreshToken.Some? && prior.expiresAt <= 0 && x.response.refreshToken.None?
  }

  function Before(x: Case, prior: Bundle): map<Scope, Entry> {
    map[x.Scope() := Live(prior)]
  }

  lemma NothingToCarry(x: Case, prior: Bundle) returns (ws: seq<World>, ls: seq<Label>)
    requires Loses(x, prior)
    ensures IsRun(ws, ls) && ws[0].store == Before(x, prior)
    ensures ws[|ls|] == x.Scene(x.row, Before(x, prior), map[7 := x.Completion(x.CarriedStage())])
  {
    ws, ls := IdentityChecked(x, Before(x, prior));
    ws, ls := Next(ws, ls, Label(7, OfComplete(CarryRefresh(None))),
                   x.Scene(x.row, Before(x, prior), map[7 := x.Completion(x.CarriedStage())]));
  }

  function MustRotateStage(x: Case): CompleteStage
    requires x.Plausible()
  {
    MustRotate(x.row.accountRef, x.Scopes(), x.Bundle(), 0, x.evidence)
  }

  lemma FindsItLive(x: Case, prior: Bundle) returns (ws: seq<World>, ls: seq<Label>)
    requires Loses(x, prior)
    ensures IsRun(ws, ls) && ws[0].store == Before(x, prior)
    ensures ws[|ls|] == x.Scene(x.row, Before(x, prior), map[7 := x.Completion(MustRotateStage(x))])
  {
    ws, ls := NothingToCarry(x, prior);
    ws, ls := Next(ws, ls, Label(7, OfComplete(IssueCredential(None))),
                   x.Scene(x.row, Before(x, prior), map[7 := x.Completion(MustRotateStage(x))]));
  }

  lemma ReplacesIt(x: Case, prior: Bundle) returns (ws: seq<World>, ls: seq<Label>)
    requires Loses(x, prior)
    ensures IsRun(ws, ls) && ws[0].store == Before(x, prior)
    ensures ws[|ls|] == x.Scene(x.row, x.Stocked(), map[7 := x.Completion(x.InStoreStage())])
  {
    ws, ls := FindsItLive(x, prior);
    assert Before(x, prior)[x.Scope() := Live(x.Bundle())] == x.Stocked();
    ws, ls := Next(ws, ls, Label(7, OfComplete(RotateInstead(None))),
                   x.Scene(x.row, x.Stocked(), map[7 := x.Completion(x.InStoreStage())]));
  }

  /** For every builtin provider, account and passing identity there is a run in which reconnecting answers Ok and
      has thrown the account's refresh token away: the read answers expired, the issue finds the scope live, and
      the rotation replaces its credential by one without. */
  lemma ReconnectMayLoseTheToken(x: Case, prior: Bundle) returns (ws: seq<World>, ls: seq<Label>)
    requires Loses(x, prior)
    ensures IsRun(ws, ls) && EntryAt(ws[0].store, x.Scope()) == Live(prior) && prior.refreshToken.Some?
    ensures 7 in ws[|ls|].calls && ws[|ls|].calls[7].Completed?
    ensures EntryAt(ws[|ls|].store, x.Scope()) == Live(x.Bundle()) && x.Bundle().refreshToken.None?
  {
    ws, ls := ReplacesIt(x, prior);
    var row := Activated(x.row, x.Scopes(), x.Bundle().expiresAt, 0);
    var done := Completed(1, x.row.provider, x.binding, x.row.accountRef, x.Bundle().expiresAt, 0, x.evidence);
    ws, ls := Next(ws, ls, Label(7, OfComplete(Activate)), x.Scene(row, x.Stocked(), map[7 := done]));
  }
}
