/** Runs of one authorization and its completion, up to the accepted identity: for every builtin provider,
    every account, every identity that passes, and whatever the store already holds. */
module CompletionRun {
  import opened Outcomes
  import opened CredentialStore
  import opened AccountRows
  import opened IdentityChecks
  import opened AccountLane
  import EndpointGuard

  /** The authorization and what its provider answers. */
  datatype Case = Case(company: nat, adapter: EndpointGuard.ProviderAdapter, row: Account, response: TokenResponse,
                       binding: Binding, evidence: Evidence) {
    /** A row as `authorize` inserts it: a builtin provider, all of which use PKCE, and a minted verifier. */
    predicate Plausible() {
      && EndpointGuard.IsBuiltin(adapter) && row.provider == adapter.provider
      && row == NewPending(row.provider, row.accountRef, row.scopes, row.verifier)
      && row.verifier.Some? && row.verifier.value != ""
      && ExpiresAt(response, 0).Some? && Passes(evidence, binding, row.accountRef)
      && binding.pkceS256 == adapter.pkceS256 && binding.defaultScopes == adapter.defaultScopes
    }

    function Scope(): Scope {
      CredentialStore.Scope(company, row.provider, row.accountRef)
    }

    function Bundle(): Bundle
      requires Plausible()
    {
      CredentialStore.Bundle(response.accessToken, response.refreshToken, ExpiresAt(response, 0).value,
                             if response.scope.Some? then response.scope else Some(adapter.defaultScopes))
    }

    function Scopes(): string {
      if response.scope.Some? then response.scope.value else ""
    }

    function Completion(stage: CompleteStage): Call {
      Completing(1, row.provider, binding, stage)
    }

    function CarriedStage(): CompleteStage
      requires Plausible()
    {
      Carried(row.accountRef, Scopes(), Bundle(), 0, evidence)
    }

    function InStoreStage(): CompleteStage
      requires Plausible()
    {
      InStore(row.accountRef, Scopes(), Bundle(), 0, evidence)
    }

    /** Call 7 completes account 1, call 8 disconnects it. */
    function Scene(row: Account, store: map<Scope, Entry>, calls: map<CallId, Call>): World {
      World(company, map[1 := row], map[], store, 0, calls, {1})
    }

    /** The store once the credential is in it. */
    function Stocked(): map<Scope, Entry>
      requires Plausible()
    {
      map[Scope() := Live(Bundle())]
    }
  }

  /** A run with one more step. */
  lemma Next(worlds: seq<World>, labels: seq<Label>, l: Label, v: World) returns (ws: seq<World>, ls: seq<Label>)
    requires IsRun(worlds, labels) && Enabled(worlds[|labels|], l) && v == Apply(worlds[|labels|], l)
    ensures IsRun(ws, ls) && ws[|ls|] == v && worlds <= ws && ls == labels + [l]
  {
    ws, ls := Extend(worlds, labels, l);
  }

  lemma Authorized(x: Case, store: map<Scope, Entry>) returns (ws: seq<World>, ls: seq<Label>)
    requires x.Plausible()
    ensures IsRun(ws, ls) && ws[0].store == store && ws[|ls|] == x.Scene(x.row, store, map[])
  {
    ws, ls := [World(x.company, map[], map[], store, 0, map[], {})], [];
    ws, ls := Next(ws, ls, Label(0, Authorize(1, x.row, {})), x.Scene(x.row, store, map[]));
  }

  lemma Begun(x: Case, store: map<Scope, Entry>) returns (ws: seq<World>, ls: seq<Label>)
    requires x.Plausible()
    ensures IsRun(ws, ls) && ws[0].store == store
    ensures ws[|ls|] == x.Scene(x.row, store, map[7 := x.Completion(StateVerified)])
  {
    ws, ls := Authorized(x, store);
    ws, ls := Next(ws, ls, Label(7, Begin(x.Completion(StateVerified))),
                     x.Scene(x.row, store, map[7 := x.Completion(StateVerified)]));
  }

  lemma Opening(x: Case, store: map<Scope, Entry>) returns (ws: seq<World>, ls: seq<Label>)
    requires x.Plausible()
    ensures IsRun(ws, ls) && ws[0].store == store
    ensures ws[|ls|] == x.Scene(x.row, store, map[7 := x.Completion(AccountRead(x.row.accountRef))])
  {
    ws, ls := Begun(x, store);
    ws, ls := Next(ws, ls, Label(7, OfComplete(ReadAccount)),
                     x.Scene(x.row, store, map[7 := x.Completion(AccountRead(x.row.accountRef))]));
  }

  lemma VerifierFetched(x: Case, store: map<Scope, Entry>) returns (ws: seq<World>, ls: seq<Label>)
    requires x.Plausible()
    ensures IsRun(ws, ls) && ws[0].store == store
    ensures ws[|ls|] == x.Scene(x.row, store, map[7 := x.Completion(VerifierRead(x.row.accountRef, x.row.verifier))])
  {
    EndpointGuard.BuiltinsUsePkce(x.adapter);
    ws, ls := Opening(x, store);
    ws, ls := Next(ws, ls, Label(7, OfComplete(ReadVerifier)),
                     x.Scene(x.row, store, map[7 := x.Completion(VerifierRead(x.row.accountRef, x.row.verifier))]));
  }

  lemma CodeExchanged(x: Case, store: map<Scope, Entry>) returns (ws: seq<World>, ls: seq<Label>)
    requires x.Plausible()
    ensures IsRun(ws, ls) && ws[0].store == store
    ensures
      var exchanged := Exchanged(x.row.accountRef, x.response, ExpiresAt(x.response, 0).value, 0);
      ws[|ls|] == x.Scene(x.row, store, map[7 := x.Completion(exchanged)])
  {
    ws, ls := VerifierFetched(x, store);
    var exchanged := Exchanged(x.row.accountRef, x.response, ExpiresAt(x.response, 0).value, 0);
    ws, ls := Next(ws, ls, Label(7, OfComplete(ExchangeCode(Some(x.response)))),
                     x.Scene(x.row, store, map[7 := x.Completion(exchanged)]));
  }

  lemma IdentityChecked(x: Case, store: map<Scope, Entry>) returns (ws: seq<World>, ls: seq<Label>)
    requires x.Plausible()
    ensures IsRun(ws, ls) && ws[0].store == store
    ensures
      var identified := Identified(x.row.accountRef, x.response, ExpiresAt(x.response, 0).value, 0, x.evidence);
      ws[|ls|] == x.Scene(x.row, store, map[7 := x.Completion(identified)])
  {
    ws, ls := CodeExchanged(x, store);
    var identified := Identified(x.row.accountRef, x.response, ExpiresAt(x.response, 0).value, 0, x.evidence);
    ws, ls := Next(ws, ls, Label(7, OfComplete(CheckIdentity(x.evidence))),
                     x.Scene(x.row, store, map[7 := x.Completion(identified)]));
  }

  // ---------------------------------------------------------------- the cases there are

  /** Any account of a builtin provider, with the shared-mailbox bypass off and its own address confirmed. */
  lemma EveryAccountIsACase(company: nat, adapter: EndpointGuard.ProviderAdapter, accountRef: string, scopes: string,
                            verifier: string, accessToken: string, lifetime: int, clientId: string, nonce: string)
    returns (x: Case)
    requires EndpointGuard.IsBuiltin(adapter) && Core(accountRef, 0, |accountRef|) && verifier != "" && lifetime > 0
    ensures x.Plausible() && !x.binding.bypass && x.company == company && x.adapter == adapter
    ensures x.row == NewPending(adapter.provider, accountRef, scopes, Some(verifier))
  {
    var identity := IdentityClaims(Some(accountRef), Some(true), Some(clientId), Some(nonce));
    OwnAddressHolds(identity, accountRef);
    x := Case(company, adapter, NewPending(adapter.provider, accountRef, scopes, Some(verifier)),
              TokenResponse(accessToken, None, Some(lifetime), None),
              Binding(nonce, clientId, adapter.pkceS256, adapter.defaultScopes, false), Evidence(identity, None));
  }
}
