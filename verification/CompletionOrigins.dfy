/** Where everything a completion checks, stores and writes comes from: the pending row, the provider's
    response, and the credential its scope held before, for any completion in any run. */
module CompletionOrigins {
  import opened Outcomes
  import opened CredentialStore
  import opened AccountRows
  import opened IdentityChecks
  import opened AccountLane
  import opened AccountInvariants
  import opened AccountResults

  /** A step of completion `c`. */
  ghost predicate CompleteStep(worlds: seq<World>, labels: seq<Label>, k: nat, c: CallId, a: CompleteAct) {
    IsRun(worlds, labels) && k < |labels| && labels[k] == Label(c, OfComplete(a))
  }

  predicate WasCompleting(worlds: seq<World>, k: nat, c: CallId) {
    k + 1 < |worlds| && c in worlds[k].calls && worlds[k].calls[c].Completing? && c in worlds[k + 1].calls
  }

  // ---------------------------------------------------------------- what each step decides

  /** The account must be there, the state's provider's, and pending. */
  lemma AccountDecides(worlds: seq<World>, labels: seq<Label>, k: nat, c: CallId)
    requires CompleteStep(worlds, labels, k, c, ReadAccount)
    ensures WasCompleting(worlds, k, c)
    ensures
      var (w, call, next) := (worlds[k], worlds[k].calls[c], worlds[k + 1].calls[c]);
      var id := call.accountId;
      if id in w.accounts && w.accounts[id].provider == call.provider && w.accounts[id].status == Pending
      then next == call.(stage := AccountRead(w.accounts[id].accountRef)) else next == Ended
  {
    assert StepAt(worlds, labels, k);
  }

  /** With PKCE the row must have a verifier that is not empty, without it none is read. */
  lemma VerifierDecides(worlds: seq<World>, labels: seq<Label>, k: nat, c: CallId)
    requires CompleteStep(worlds, labels, k, c, ReadVerifier)
    ensures WasCompleting(worlds, k, c) && worlds[k].calls[c].stage.AccountRead?
    ensures
      var (w, call, next) := (worlds[k], worlds[k].calls[c], worlds[k + 1].calls[c]);
      var (id, ref) := (call.accountId, call.stage.accountRef);
      if !call.binding.pkceS256 then next == call.(stage := VerifierRead(ref, None))
      else if id in w.accounts && w.accounts[id].verifier.Some? && |w.accounts[id].verifier.value| > 0
      then next == call.(stage := VerifierRead(ref, w.accounts[id].verifier)) else next == Ended
  {
    assert StepAt(worlds, labels, k);
  }

  /** A response counts only with a positive lifetime, from the clock as it comes in. */
  lemma ResponseDecides(worlds: seq<World>, labels: seq<Label>, k: nat, c: CallId, granted: Option<TokenResponse>)
    requires CompleteStep(worlds, labels, k, c, ExchangeCode(granted))
    ensures WasCompleting(worlds, k, c) && worlds[k].calls[c].stage.VerifierRead?
    ensures
      var (w, call, next) := (worlds[k], worlds[k].calls[c], worlds[k + 1].calls[c]);
      if granted.Some? && granted.value.expiresIn.Some? && granted.value.expiresIn.value > 0
      then next == call.(stage := Exchanged(call.stage.accountRef, granted.value,
                                            w.clock + granted.value.expiresIn.value, w.clock))
      else next == Ended
  {
    assert StepAt(worlds, labels, k);
  }

  /** The identity is let through when it names client and nonce and an address of the account's, and only then. */
  lemma IdentityDecides(worlds: seq<World>, labels: seq<Label>, k: nat, c: CallId, e: Evidence)
    requires CompleteStep(worlds, labels, k, c, CheckIdentity(e))
    ensures WasCompleting(worlds, k, c) && worlds[k].calls[c].stage.Exchanged?
    ensures
      var (call, next) := (worlds[k].calls[c], worlds[k + 1].calls[c]);
      var (b, stage) := (call.binding, call.stage);
      if AudienceAndNonceHold(e.identity, e.token, b.clientId, b.nonce)
         && EmailHolds(e.identity, stage.accountRef, b.bypass)
      then next == call.(stage := Identified(stage.accountRef, stage.response, stage.expiresAt, stage.now, e))
      else next == Ended
  {
    assert StepAt(worlds, labels, k);
  }

  /** The bundle for a response: the refresh token of the credential the scope holds, if it can be read, stands in
      for one the response leaves out, and the provider's default scopes for a scope it leaves out. */
  predicate Assembled(w: World, s: Scope, failed: bool, defaultScopes: string, r: TokenResponse, expiresAt: int,
                      b: Bundle) {
    && b.accessToken == r.accessToken && b.expiresAt == expiresAt
    && (r.scope.Some? ==> b.grantedScope == r.scope)
    && (r.scope.None? ==> b.grantedScope == Some(defaultScopes))
    && (r.refreshToken.Some? ==> b.refreshToken == r.refreshToken)
    && (r.refreshToken.None? && !failed && Readable(w, s).Some? ==>
          b.refreshToken == Readable(w, s).value.refreshToken)
    && (r.refreshToken.None? && (failed || Readable(w, s).None?) ==> b.refreshToken == None)
  }

  lemma BundleDecides(worlds: seq<World>, labels: seq<Label>, k: nat, c: CallId, injected: Option<StoreFailure>)
    requires CompleteStep(worlds, labels, k, c, CarryRefresh(injected))
    ensures WasCompleting(worlds, k, c) && worlds[k].calls[c].stage.Identified?
    ensures
      var (w, call, next) := (worlds[k], worlds[k].calls[c], worlds[k + 1].calls[c]);
      var was := call.stage;
      && next.Completing? && next.stage.Carried? && worlds[k + 1].store == w.store
      && next == call.(stage := Carried(was.accountRef,
                                        if was.response.scope.Some? then was.response.scope.value else "",
                                        next.stage.bundle, was.now, was.evidence))
      && Assembled(w, Scope(w.company, call.provider, was.accountRef), injected.Some?, call.binding.defaultScopes,
                   was.response, was.expiresAt, next.stage.bundle)
  {
    assert StepAt(worlds, labels, k);
  }

  /** The credential is issued to a scope without a live one; a live one sends the completion on to rotate. */
  lemma IssueDecides(worlds: seq<World>, labels: seq<Label>, k: nat, c: CallId, injected: Option<StoreFailure>)
    requires CompleteStep(worlds, labels, k, c, IssueCredential(injected))
    ensures WasCompleting(worlds, k, c) && worlds[k].calls[c].stage.Carried?
    ensures
      var (w, v, call, next) := (worlds[k], worlds[k + 1], worlds[k].calls[c], worlds[k + 1].calls[c]);
      var (was, s) := (call.stage, Scope(w.company, call.provider, call.stage.accountRef));
      var live := s in w.store && w.store[s].Live?;
      && v.accounts == w.accounts
      && if injected.None? && !live then
           && v.store == w.store[s := Live(was.bundle)]
           && next == call.(stage := InStore(was.accountRef, was.scopes, was.bundle, was.now, was.evidence))
         else
           && v.store == w.store
           && next == if injected == Some(DuplicateActive) || injected.None?
                      then call.(stage := MustRotate(was.accountRef, was.scopes, was.bundle, was.now, was.evidence))
                      else Ended
  {
    assert StepAt(worlds, labels, k);
  }

  /** The rotation takes the place of a live credential, and of nothing else. */
  lemma InsteadDecides(worlds: seq<World>, labels: seq<Label>, k: nat, c: CallId, injected: Option<StoreFailure>)
    requires CompleteStep(worlds, labels, k, c, RotateInstead(injected))
    ensures WasCompleting(worlds, k, c) && worlds[k].calls[c].stage.MustRotate?
    ensures
      var (w, v, call, next) := (worlds[k], worlds[k + 1], worlds[k].calls[c], worlds[k + 1].calls[c]);
      var (was, s) := (call.stage, Scope(w.company, call.provider, call.stage.accountRef));
      && v.accounts == w.accounts
      && if injected.None? && s in w.store && w.store[s].Live? then
           && v.store == w.store[s := Live(was.bundle)]
           && next == call.(stage := InStore(was.accountRef, was.scopes, was.bundle, was.now, was.evidence))
         else v.store == w.store && next == Ended
  {
    assert StepAt(worlds, labels, k);
  }

  /** The last statement writes a row that is still pending, and answers Ok exactly then. */
  lemma ActivateDecides(worlds: seq<World>, labels: seq<Label>, k: nat, c: CallId)
    requires CompleteStep(worlds, labels, k, c, Activate)
    ensures WasCompleting(worlds, k, c) && worlds[k].calls[c].stage.InStore?
    ensures
      var (w, v, call, next) := (worlds[k], worlds[k + 1], worlds[k].calls[c], worlds[k + 1].calls[c]);
      var (was, id) := (call.stage, call.accountId);
      && v.store == w.store
      && if id in w.accounts && w.accounts[id].status == Pending then
           && v.accounts == w.accounts[id := Account(call.provider, was.accountRef, Active, was.scopes, None,
                                                     Some(was.bundle.expiresAt), Some(was.now))]
           && next == Completed(id, call.provider, call.binding, was.accountRef, was.bundle.expiresAt, was.now,
                                was.evidence)
         else v.accounts == w.accounts && next == Ended
  {
    assert StepAt(worlds, labels, k);
    RunSound(worlds, labels, k);
    assert CallHolds(worlds[k], worlds[k].calls[c]);
  }

  // ---------------------------------------------------------------- over runs

  /** The same completion, at another point of it. */
  predicate SameCompletion(a: Call, b: Call) {
    a.Completing? && b.Completing? && a == b.(stage := a.stage)
  }

  /** Step `a` read the account, pending and of that provider; step `v` its verifier, if the provider wants one. */
  ghost predicate AskedWith(worlds: seq<World>, labels: seq<Label>, a: nat, v: nat, c: CallId, call: Call,
                            accountRef: string, verifier: Option<string>)
    requires call.Completing?
  {
    && a < v < |labels| < |worlds|
    && labels[a] == Label(c, OfComplete(ReadAccount)) && labels[v] == Label(c, OfComplete(ReadVerifier))
    && var id := call.accountId;
       && id in worlds[a].accounts && worlds[a].accounts[id].status == Pending
       && worlds[a].accounts[id].provider == call.provider && worlds[a].accounts[id].accountRef == accountRef
       && if call.binding.pkceS256
          then id in worlds[v].accounts && verifier == worlds[v].accounts[id].verifier
               && verifier.Some? && verifier.value != ""
          else verifier == None
  }

  /** A completion asks the provider for the account it found pending, with the verifier of that row and no other. */
  lemma VerifierFrom(worlds: seq<World>, labels: seq<Label>, n: nat, c: CallId) returns (a: nat, v: nat)
    requires IsRun(worlds, labels) && n <= |labels| && c in worlds[n].calls
    requires worlds[n].calls[c].Completing? && worlds[n].calls[c].stage.VerifierRead?
    ensures
      var call := worlds[n].calls[c];
      v < n && AskedWith(worlds, labels, a, v, c, call, call.stage.accountRef, call.stage.verifier)
  {
    v := LastMove(worlds, labels, n, c);
    assert StepAt(worlds, labels, v);
    assert labels[v].act == OfComplete(ReadVerifier);
    VerifierDecides(worlds, labels, v, c);
    a := LastMove(worlds, labels, v, c);
    assert StepAt(worlds, labels, a);
    AccountDecides(worlds, labels, a, c);
  }

  /** Step `i` of completion `call` was granted that response. */
  ghost predicate GrantedAt(worlds: seq<World>, labels: seq<Label>, i: nat, c: CallId, call: Call, accountRef: string,
                            r: TokenResponse, expiresAt: int, now: int) {
    && i < |labels| < |worlds| && labels[i] == Label(c, OfComplete(ExchangeCode(Some(r))))
    && c in worlds[i].calls && SameCompletion(worlds[i].calls[c], call)
    && worlds[i].calls[c].stage.VerifierRead? && worlds[i].calls[c].stage.accountRef == accountRef
    && now == worlds[i].clock && r.expiresIn.Some? && r.expiresIn.value > 0 && expiresAt == now + r.expiresIn.value
  }

  lemma ResponseFrom(worlds: seq<World>, labels: seq<Label>, n: nat, c: CallId) returns (i: nat)
    requires IsRun(worlds, labels) && n <= |labels| && c in worlds[n].calls && worlds[n].calls[c].Completing?
    requires worlds[n].calls[c].stage.Exchanged? || worlds[n].calls[c].stage.Identified?
    ensures
      var call := worlds[n].calls[c];
      i < n && GrantedAt(worlds, labels, i, c, call, call.stage.accountRef, call.stage.response, call.stage.expiresAt,
                         call.stage.now)
  {
    i := LastMove(worlds, labels, n, c);
    assert StepAt(worlds, labels, i);
    assert labels[i].act.OfComplete?;
    if labels[i].act.complete.CheckIdentity? {
      IdentityDecides(worlds, labels, i, c, labels[i].act.complete.evidence);
      i := LastMove(worlds, labels, i, c);
      assert StepAt(worlds, labels, i);
    }
    assert labels[i].act.OfComplete? && labels[i].act.complete.ExchangeCode?;
    ResponseDecides(worlds, labels, i, c, labels[i].act.complete.granted);
  }

  /** Step `j` of this completion assembled its bundle out of the response it got at step `i`. */
  ghost predicate AssembledAt(worlds: seq<World>, labels: seq<Label>, i: nat, j: nat, c: CallId, call: Call,
                              accountRef: string, scopes: string, b: Bundle, now: int, r: TokenResponse) {
    && i < j < |labels| < |worlds|
    && labels[j].caller == c && labels[j].act.OfComplete? && labels[j].act.complete.CarryRefresh?
    && GrantedAt(worlds, labels, i, c, call, accountRef, r, b.expiresAt, now)
    && scopes == (if r.scope.Some? then r.scope.value else "")
    && Assembled(worlds[j], Scope(worlds[j].company, call.provider, accountRef),
                 labels[j].act.complete.readFailure.Some?, call.binding.defaultScopes, r, b.expiresAt, b)
  }

  lemma CarriedFrom(worlds: seq<World>, labels: seq<Label>, n: nat, c: CallId)
    returns (i: nat, j: nat, r: TokenResponse)
    requires IsRun(worlds, labels) && n <= |labels| && c in worlds[n].calls
    requires worlds[n].calls[c].Completing? && worlds[n].calls[c].stage.Carried?
    ensures
      var call := worlds[n].calls[c];
      j < n && AssembledAt(worlds, labels, i, j, c, call, call.stage.accountRef, call.stage.scopes, call.stage.bundle,
                           call.stage.now, r)
  {
    j := LastMove(worlds, labels, n, c);
    assert StepAt(worlds, labels, j);
    assert labels[j].act.OfComplete? && labels[j].act.complete.CarryRefresh?;
    BundleDecides(worlds, labels, j, c, labels[j].act.complete.readFailure);
    r := worlds[j].calls[c].stage.response;
    i := ResponseFrom(worlds, labels, j, c);
  }

  predicate CarriesBundle(call: Call) {
    call.Completing? && (call.stage.Carried? || call.stage.MustRotate? || call.stage.InStore?)
  }

  /** Whatever bundle a completion carries, rotates in or has in the store is the one it assembled out of its own
      response: access token and lifetime are the response's, the scope too or the provider's defaults, and the
      refresh token the response's, or that of the credential its scope held, or none. */
  lemma BundleFrom(worlds: seq<World>, labels: seq<Label>, n: nat, c: CallId) returns (i: nat, j: nat, r: TokenResponse)
    requires IsRun(worlds, labels) && n <= |labels| && c in worlds[n].calls && CarriesBundle(worlds[n].calls[c])
    ensures
      var call := worlds[n].calls[c];
      j < n && AssembledAt(worlds, labels, i, j, c, call, call.stage.accountRef, call.stage.scopes, call.stage.bundle,
                           call.stage.now, r)
  {
    if worlds[n].calls[c].stage.Carried? {
      i, j, r := CarriedFrom(worlds, labels, n, c);
    } else {
      var m := LastMove(worlds, labels, n, c);
      assert StepAt(worlds, labels, m);
      assert labels[m].act.OfComplete?;
      if labels[m].act.complete.RotateInstead? {
        InsteadDecides(worlds, labels, m, c, labels[m].act.complete.insteadFailure);
      } else {
        IssueDecides(worlds, labels, m, c, labels[m].act.complete.issueFailure);
      }
      i, j, r := BundleFrom(worlds, labels, m, c);
    }
  }

  /** The credential and the row of an Ok, down to the last column: both are made of one response, the row as the
      last statement left it. */
  lemma CompletedFrom(worlds: seq<World>, labels: seq<Label>, n: nat, c: CallId)
    returns (i: nat, j: nat, m: nat, r: TokenResponse)
    requires IsRun(worlds, labels) && n <= |labels| && c in worlds[n].calls && worlds[n].calls[c].Completed?
    ensures
      var done := worlds[n].calls[c];
      && j < m < n && labels[m] == Label(c, OfComplete(Activate))
      && c in worlds[m].calls && CarriesBundle(worlds[m].calls[c]) && worlds[m].calls[c].stage.InStore?
      && var (call, stage) := (worlds[m].calls[c], worlds[m].calls[c].stage);
         && call == Completing(done.accountId, done.provider, done.binding, stage)
         && stage.accountRef == done.accountRef && stage.bundle.expiresAt == done.expiresAt && stage.now == done.now
         && stage.evidence == done.evidence
         && AssembledAt(worlds, labels, i, j, c, call, done.accountRef, stage.scopes, stage.bundle, done.now, r)
         && done.accountId in worlds[m + 1].accounts
         && worlds[m + 1].accounts[done.accountId]
            == Account(done.provider, done.accountRef, Active, if r.scope.Some? then r.scope.value else "", None,
                       Some(done.expiresAt), Some(done.now))
  {
    m := LastMove(worlds, labels, n, c);
    assert StepAt(worlds, labels, m);
    assert labels[m].act == OfComplete(Activate);
    ActivateDecides(worlds, labels, m, c);
    i, j, r := BundleFrom(worlds, labels, m, c);
  }
}
