/** A completion overtaken by a disconnect: what the documentation of both promises and the code does not
    keep, on a run that exists for every builtin provider, every account and every identity that passes. */
module LateRejection {
  import opened Outcomes
  import opened CredentialStore
  import opened AccountRows
  import opened IdentityChecks
  import opened AccountLane
  import opened AccountInvariants
  import opened AccountResults
  import opened Withdrawals
  import opened CompletionRun
  import EndpointGuard

  lemma BundleCarried(x: Case) returns (ws: seq<World>, ls: seq<Label>)
    requires x.Plausible()
    ensures IsRun(ws, ls) && ws[0].store == map[]
    ensures ws[|ls|] == x.Scene(x.row, map[], map[7 := x.Completion(x.CarriedStage())])
  {
    ws, ls := IdentityChecked(x, map[]);
    ws, ls := Next(ws, ls, Label(7, OfComplete(CarryRefresh(None))),
                     x.Scene(x.row, map[], map[7 := x.Completion(x.CarriedStage())]));
  }

  lemma DisconnectBegins(x: Case) returns (ws: seq<World>, ls: seq<Label>)
    requires x.Plausible()
    ensures IsRun(ws, ls) && ws[0].store == map[]
    ensures ws[|ls|] == x.Scene(x.row, map[], map[7 := x.Completion(x.CarriedStage()), 8 := Disconnecting(1, Looking)])
  {
    ws, ls := BundleCarried(x);
    ws, ls := Next(ws, ls, Label(8, Begin(Disconnecting(1, Looking))),
                     x.Scene(x.row, map[], map[7 := x.Completion(x.CarriedStage()), 8 := Disconnecting(1, Looking)]));
  }

  lemma DisconnectLooks(x: Case) returns (ws: seq<World>, ls: seq<Label>)
    requires x.Plausible()
    ensures IsRun(ws, ls) && ws[0].store == map[]
    ensures
      var found := Disconnecting(1, Found(x.row.provider, x.row.accountRef));
      ws[|ls|] == x.Scene(x.row, map[], map[7 := x.Completion(x.CarriedStage()), 8 := found])
  {
    ws, ls := DisconnectBegins(x);
    var found := Disconnecting(1, Found(x.row.provider, x.row.accountRef));
    ws, ls := Next(ws, ls, Label(8, OfDisconnect(FindAccount)),
                     x.Scene(x.row, map[], map[7 := x.Completion(x.CarriedStage()), 8 := found]));
  }

  lemma DisconnectWithdraws(x: Case) returns (ws: seq<World>, ls: seq<Label>)
    requires x.Plausible()
    ensures IsRun(ws, ls) && ws[0].store == map[]
    ensures ws[|ls|] == x.Scene(x.row, map[],
                                map[7 := x.Completion(x.CarriedStage()), 8 := Disconnecting(1, Withdrawn)])
  {
    ws, ls := DisconnectLooks(x);
    ws, ls := Next(ws, ls, Label(8, OfDisconnect(Withdraw(None))),
                     x.Scene(x.row, map[], map[7 := x.Completion(x.CarriedStage()), 8 := Disconnecting(1, Withdrawn)]));
  }

  lemma CredentialStored(x: Case) returns (ws: seq<World>, ls: seq<Label>)
    requires x.Plausible()
    ensures IsRun(ws, ls) && ws[0].store == map[]
    ensures ws[|ls|] == x.Scene(x.row, x.Stocked(),
                                map[7 := x.Completion(x.InStoreStage()), 8 := Disconnecting(1, Withdrawn)])
  {
    ws, ls := DisconnectWithdraws(x);
    ws, ls := Next(ws, ls, Label(7, OfComplete(IssueCredential(None))),
                     x.Scene(x.row, x.Stocked(),
                             map[7 := x.Completion(x.InStoreStage()), 8 := Disconnecting(1, Withdrawn)]));
  }

  lemma DisconnectEnds(x: Case) returns (ws: seq<World>, ls: seq<Label>, k: nat)
    requires x.Plausible()
    ensures IsRun(ws, ls) && ws[0].store == map[] && k < |ls| && ReachesStore(ws[k], 7)
    ensures
      ws[|ls|] == x.Scene(Disconnected(x.row), x.Stocked(),
                          map[7 := x.Completion(x.InStoreStage()), 8 := DisconnectDone(1)])
  {
    ws, ls := CredentialStored(x);
    k := |ls|;
    ws, ls := Next(ws, ls, Label(8, OfDisconnect(MarkRevoked)),
                     x.Scene(Disconnected(x.row), x.Stocked(),
                             map[7 := x.Completion(x.InStoreStage()), 8 := DisconnectDone(1)]));
  }

  /** A completion may be rejected after it has written the store, and a disconnect that answered Ok may
      leave a live credential behind: both calls are over, the completion was turned away at its last
      statement, the account is revoked, and its scope's credential is live. */
  lemma RejectionAfterTheStoreWrite(x: Case) returns (ws: seq<World>, ls: seq<Label>, k: nat)
    requires x.Plausible()
    ensures IsRun(ws, ls) && ws[0].store == map[] && k < |ls| && ReachesStore(ws[k], 7)
    ensures ws[|ls|] == x.Scene(Disconnected(x.row), x.Stocked(), map[7 := Ended, 8 := DisconnectDone(1)])
  {
    ws, ls, k := DisconnectEnds(x);
    ws, ls := Next(ws, ls, Label(7, OfComplete(Activate)),
                     x.Scene(Disconnected(x.row), x.Stocked(), map[7 := Ended, 8 := DisconnectDone(1)]));
  }

  lemma SecondDisconnectBegins(x: Case)
    returns (ws: seq<World>, ls: seq<Label>, first: nat)
    requires x.Plausible()
    ensures IsRun(ws, ls) && |ls| == first + 1 && ls[first] == Label(9, Begin(Disconnecting(1, Looking)))
    ensures ws[first] == x.Scene(Disconnected(x.row), x.Stocked(), map[7 := Ended, 8 := DisconnectDone(1)])
    ensures
      var over := map[7 := Ended, 8 := DisconnectDone(1)];
      ws[|ls|] == x.Scene(Disconnected(x.row), x.Stocked(), over[9 := Disconnecting(1, Looking)])
  {
    var k;
    ws, ls, k := RejectionAfterTheStoreWrite(x);
    first := |ls|;
    var over := map[7 := Ended, 8 := DisconnectDone(1)];
    ws, ls := Next(ws, ls, Label(9, Begin(Disconnecting(1, Looking))),
                     x.Scene(Disconnected(x.row), x.Stocked(), over[9 := Disconnecting(1, Looking)]));
  }

  /** And asking again does not help. After that run, and with nothing else running, a second disconnect finds
      the account revoked already and answers Ok without asking the store: the world is as the first left it. */
  lemma SecondDisconnectChangesNothing(x: Case) returns (ws: seq<World>, ls: seq<Label>, first: nat)
    requires x.Plausible()
    ensures IsRun(ws, ls) && |ls| == first + 2 && forall k | first <= k < |ls| :: ls[k].caller == 9
    ensures
      var over := map[7 := Ended, 8 := DisconnectDone(1)];
      && ws[first] == x.Scene(Disconnected(x.row), x.Stocked(), over)
      && ws[|ls|] == x.Scene(Disconnected(x.row), x.Stocked(), over[9 := DisconnectDone(1)])
    ensures IsLive(ws[|ls|], x.Scope())
  {
    ws, ls, first := SecondDisconnectBegins(x);
    var over := map[7 := Ended, 8 := DisconnectDone(1)];
    ws, ls := Next(ws, ls, Label(9, OfDisconnect(FindAccount)),
                     x.Scene(Disconnected(x.row), x.Stocked(), over[9 := DisconnectDone(1)]));
  }

  /** So for every such account there is the run: rejected after its store write, disconnected, and live. */
  lemma EveryAccountMayBeLeftLive(company: nat, adapter: EndpointGuard.ProviderAdapter, accountRef: string,
                                  scopes: string, verifier: string)
    returns (ws: seq<World>, ls: seq<Label>, k: nat)
    requires EndpointGuard.IsBuiltin(adapter) && Core(accountRef, 0, |accountRef|) && verifier != ""
    ensures IsRun(ws, ls) && ws[0].store == map[] && k < |ls| && ReachesStore(ws[k], 7)
    ensures 7 in ws[|ls|].calls && ws[|ls|].calls[7] == Ended
    ensures 8 in ws[|ls|].calls && ws[|ls|].calls[8] == DisconnectDone(1)
    ensures IsLive(ws[|ls|], Scope(company, adapter.provider, accountRef))
  {
    var x := EveryAccountIsACase(company, adapter, accountRef, scopes, verifier, "token", 3600, "client", "nonce");
    ws, ls, k := RejectionAfterTheStoreWrite(x);
  }
}
