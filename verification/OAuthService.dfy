/** `IntegrationsOauthService`: the calls as the source writes them, over rows and a store that others
    change in between. Each body is shown to be a path of the account lane, so `AccountResults`,
    `RefreshResults` and `SweepCoverage` hold of these bodies under any interference. */
module OAuthService {
  import opened Outcomes
  import opened CredentialStore
  import opened AccountRows
  import opened IdentityChecks
  import opened AccountLane
  import opened AccountInvariants
  import opened AccountResults
  import opened ServiceSweep
  import opened SweepAlone
  import opened OAuthDatabase
  import opened StateToken

  datatype OauthError =
    | UnknownAccount | BadState | ProviderUnconfigured | TransportFailed | Unstoreable | Identity | StoreFailed | Db

  datatype CompleteOutcome = CompleteOutcome(accountId: AccountId, provider: string, accountRef: string,
                                             scopes: string, expiresAt: int)

  /** What registry and configuration have for a provider. */
  datatype Registered = Registered(pkceS256: bool, defaultScopes: string, setup: Setup)

  class IntegrationsOauthService {
    const db: Database
    const providers: map<string, Registered>
    const refreshWindow: nat
    const refreshBatchSize: nat
    const sharedMailboxBypass: bool

    constructor (db: Database, providers: map<string, Registered>, refreshWindowSeconds: int, refreshBatchSize: int,
                 sharedMailboxBypass: bool)
      ensures this.db == db && this.providers == providers
      ensures this.refreshWindow == (if refreshWindowSeconds < 0 then 0 else refreshWindowSeconds)
      ensures this.refreshBatchSize == (if refreshBatchSize < 1 then 1 else refreshBatchSize)
      ensures this.sharedMailboxBypass == sharedMailboxBypass
    {
      this.db := db;
      this.providers := providers;
      this.refreshWindow := if refreshWindowSeconds < 0 then 0 else refreshWindowSeconds;
      this.refreshBatchSize := if refreshBatchSize < 1 then 1 else refreshBatchSize;
      this.sharedMailboxBypass := sharedMailboxBypass;
    }

    function SetupOf(provider: string): Setup {
      if provider in providers then providers[provider].setup else Setup(false, false, None)
    }

    /** What the completion of a verified state is held to: its nonce, and this service's configuration. */
    function BindingOf(a: OAuthState): Binding {
      var clientId := SetupOf(a.provider).clientId;
      Binding(a.nonce, if clientId.Some? then clientId.value else "",
              a.provider in providers && providers[a.provider].pkceS256,
              if a.provider in providers then providers[a.provider].defaultScopes else "", sharedMailboxBypass)
    }

    /** The completion of that state, at a stage of it. */
    function CallOf(a: OAuthState, stage: CompleteStage): Call {
      Completing(a.accountId, a.provider, BindingOf(a), stage)
    }

    // ---------------------------------------------------------------- authorize

    /** Replace every row of the account by a fresh pending one. */
    method Authorize(newId: AccountId, provider: string, accountRef: string, scopes: string, verifier: Option<string>,
                     ghost me: CallId)
      returns (r: Result<AccountId, OauthError>)
      requires db.Valid() && db.Starts(me) && newId !in db.Now().issued
      modifies db
      ensures db.Valid() && db.store == old(db.store) && db.locked == old(db.locked)
      ensures r.Ok? ==>
        && r.value == newId
        && Reauthorized(old(db.accounts), db.accounts, newId, provider, accountRef, scopes, verifier)
      ensures r.Err? ==>
        && r == Err(Db) && db.accounts == old(db.accounts)
        && (me in db.outages || db.Contended(provider, accountRef))
    {
      var up := db.Reachable(me);
      var free := db.NobodyHolds(provider, accountRef);
      if !up || !free {
        return Err(Db);
      }
      db.ReplaceAccount(newId, NewPending(provider, accountRef, scopes, verifier), me);
      return Ok(newId);
    }

    // ---------------------------------------------------------------- complete

    /** The provider's answer to the code, asked with the verifier of the pending row. */
    method ExchangeCode(form: TokenRequestForm, code: string, a: OAuthState, ghost me: CallId)
      returns (granted: Option<TokenResponse>)
      requires db.Valid() && me in db.Now().calls && db.Now().calls[me].Completing?
      requires db.Now().calls[me].stage.VerifierRead?
      requires form == TokenRequestForm("authorization_code", Some(code), None, db.Now().calls[me].stage.verifier,
                                        BindingOf(a).clientId)
      modifies db`unused
      ensures db.unused == [CodeReply(granted)]
    {
      granted := *;
      db.unused := [CodeReply(granted)];
    }

    /** The provider's identity read, and the claims of the response's id_token. */
    method FetchIdentity(accessToken: string, ghost me: CallId)
      returns (fetched: Option<(IdentityClaims, Option<IdToken>)>)
      requires db.Valid() && me in db.Now().calls && db.Now().calls[me].Completing?
      requires db.Now().calls[me].stage.Exchanged? && db.Now().calls[me].stage.response.accessToken == accessToken
      modifies db`unused, db`outages
      ensures fetched.Some? ==>
        db.unused == [IdentityReply(Evidence(fetched.value.0, fetched.value.1))] && db.outages == old(db.outages)
      ensures fetched.None? ==> db.unused == [] && db.outages == old(db.outages) + {me}
    {
      fetched := *;
      if fetched.Some? {
        db.unused := [IdentityReply(Evidence(fetched.value.0, fetched.value.1))];
      } else {
        db.outages := db.outages + {me};
      }
    }

    /** Registered, with endpoints that resolved when the service was built, and a client id. */
    predicate IsConfigured(provider: string) {
      && provider in providers && providers[provider].setup.resolvedAtBuild
      && providers[provider].setup.clientId.Some? && !Blank(providers[provider].setup.clientId.value)
    }

    /** Which error ends a completion: the step that ended it, or what was not there to go on. */
    ghost predicate Blames(e: OauthError, a: OAuthState, me: CallId)
      reads db
    {
      match e
      case UnknownAccount => db.LastWas(me, OfComplete(ReadAccount)) && a.accountId !in db.accounts
      case BadState =>
        || (db.LastWas(me, OfComplete(ReadAccount)) && a.accountId in db.accounts)
        || db.LastWas(me, OfComplete(ReadVerifier)) || db.LastWas(me, OfComplete(Activate))
      case ProviderUnconfigured => !IsConfigured(a.provider)
      case TransportFailed => db.LastWas(me, OfComplete(AccountLane.ExchangeCode(None))) || me in db.outages
      case Unstoreable => exists r :: db.LastWas(me, OfComplete(AccountLane.ExchangeCode(Some(r))))
      case Identity => exists evidence :: db.LastWas(me, OfComplete(CheckIdentity(evidence)))
      case StoreFailed => exists f ::
        db.LastWas(me, OfComplete(IssueCredential(f))) || db.LastWas(me, OfComplete(AccountLane.RotateInstead(f)))
      case Db => me in db.outages || a.accountId in db.locked
    }

    /** An Ok is what the lane calls completed, with the row standing as reported; an error ends the call. */
    ghost predicate Answered(a: OAuthState, accountRef: string, me: CallId, r: Result<CompleteOutcome, OauthError>)
      reads db
      requires db.worlds != []
    {
      && me in db.Now().calls
      && var call := db.Now().calls[me];
         if r.Err? then call == Ended && Blames(r.error, a, me)
         else
           && call.Completed? && call.accountId == a.accountId == r.value.accountId
           && call.provider == a.provider && call.binding == BindingOf(a)
           && call.expiresAt == r.value.expiresAt
           && a.accountId in db.accounts && Fits(db.accounts[a.accountId], call)
           && r.value.accountRef == call.accountRef == accountRef && r.value.provider == a.provider
           && r.value.scopes == db.accounts[a.accountId].scopes
    }

    /** The guarded UPDATE; no row touched means somebody was faster. */
    method ActivateNow(a: OAuthState, accountRef: string, scopes: string, bundle: Bundle, now: int,
                       ghost evidence: Evidence, ghost me: CallId)
      returns (r: Result<CompleteOutcome, OauthError>)
      requires db.Valid()
      requires db.At(me, CallOf(a, InStore(accountRef, scopes, bundle, now, evidence)))
      requires a.accountId !in db.locked
      modifies db
      ensures db.Valid() && Answered(a, accountRef, me, r)
    {
      assert CallHolds(db.Now(), db.Now().calls[me]) by { RunSound(db.worlds, db.labels, |db.labels|); }
      var affected := db.Activate(a.accountId, scopes, bundle.expiresAt, now);
      db.Step(me, OfComplete(Activate));
      if affected != 1 {
        return Err(BadState);
      }
      return Ok(CompleteOutcome(a.accountId, a.provider, accountRef, scopes, bundle.expiresAt));
    }

    /** It waits until nobody holds the row, or gives up. */
    method ActivateAccount(a: OAuthState, accountRef: string, scopes: string, bundle: Bundle, now: int,
                           ghost evidence: Evidence, ghost me: CallId)
      returns (r: Result<CompleteOutcome, OauthError>)
      requires db.Valid()
      requires db.At(me, CallOf(a, InStore(accountRef, scopes, bundle, now, evidence)))
      modifies db
      ensures db.Valid() && Answered(a, accountRef, me, r)
    {
      db.Others(me);
      var up := db.Reachable(me);
      if !up || a.accountId in db.locked {
        db.GiveUp(me);
        return Err(Db);
      }
      r := ActivateNow(a, accountRef, scopes, bundle, now, evidence, me);
    }

    /** A scope that already holds a live credential rotates. */
    method RotateInstead(a: OAuthState, accountRef: string, scopes: string, bundle: Bundle, now: int,
                         ghost evidence: Evidence, ghost me: CallId)
      returns (r: Result<CompleteOutcome, OauthError>)
      requires db.Valid()
      requires db.At(me, CallOf(a, MustRotate(accountRef, scopes, bundle, now, evidence)))
      modifies db
      ensures db.Valid() && Answered(a, accountRef, me, r)
    {
      db.Others(me);
      var failure, injected := db.RotateToken(Scope(db.company, a.provider, accountRef), bundle);
      db.Step(me, OfComplete(AccountLane.RotateInstead(injected)));
      if failure.Some? {
        return Err(StoreFailed);
      }
      r := ActivateAccount(a, accountRef, scopes, bundle, now, evidence, me);
    }

    method StoreAndActivate(a: OAuthState, accountRef: string, scopes: string, bundle: Bundle, now: int,
                            ghost evidence: Evidence, ghost me: CallId)
      returns (r: Result<CompleteOutcome, OauthError>)
      requires db.Valid()
      requires db.At(me, CallOf(a, Carried(accountRef, scopes, bundle, now, evidence)))
      modifies db
      ensures db.Valid() && Answered(a, accountRef, me, r)
    {
      db.Others(me);
      var failure, injected := db.IssueToken(Scope(db.company, a.provider, accountRef), bundle);
      db.Step(me, OfComplete(IssueCredential(injected)));
      if failure.None? {
        r := ActivateAccount(a, accountRef, scopes, bundle, now, evidence, me);
      } else if failure.value == DuplicateActive {
        r := RotateInstead(a, accountRef, scopes, bundle, now, evidence, me);
      } else {
        return Err(StoreFailed);
      }
    }

    /** A response without a refresh token carries the prior one forward, if the store still has it. */
    method CarryForward(a: OAuthState, accountRef: string, response: TokenResponse, expiresAt: int, now: int,
                        ghost evidence: Evidence, ghost me: CallId)
      returns (r: Result<CompleteOutcome, OauthError>)
      requires db.Valid()
      requires db.At(me, CallOf(a, Identified(accountRef, response, expiresAt, now, evidence)))
      modifies db
      ensures db.Valid() && Answered(a, accountRef, me, r)
    {
      db.Others(me);
      var refresh := response.refreshToken;
      ghost var injected := None;
      if refresh.None? {
        var read, failure := db.ReadToken(Scope(db.company, a.provider, accountRef));
        injected := failure;
        refresh := if read.Ok? then read.value.refreshToken else None;
      }
      var granted := if response.scope.Some? then response.scope else Some(BindingOf(a).defaultScopes);
      db.Check(me, CarryRefresh(injected), CallOf(a, Identified(accountRef, response, expiresAt, now, evidence)));
      var scopes := if response.scope.Some? then response.scope.value else "";
      r := StoreAndActivate(a, accountRef, scopes, Bundle(response.accessToken, refresh, expiresAt, granted), now,
                            evidence, me);
    }

    /** The identity gauntlet. */
    method Identify(a: OAuthState, accountRef: string, response: TokenResponse, expiresAt: int, now: int,
                    ghost me: CallId)
      returns (r: Result<CompleteOutcome, OauthError>)
      requires db.Valid()
      requires db.At(me, CallOf(a, Exchanged(accountRef, response, expiresAt, now)))
      modifies db
      ensures db.Valid() && Answered(a, accountRef, me, r)
    {
      db.Others(me);
      var fetched := FetchIdentity(response.accessToken, me);
      if fetched.None? {
        db.GiveUp(me);
        return Err(TransportFailed);
      }
      var (identity, token) := fetched.value;
      ghost var evidence := Evidence(identity, token);
      db.Check(me, CheckIdentity(evidence), CallOf(a, Exchanged(accountRef, response, expiresAt, now)));
      if !AudienceAndNonceHold(identity, token, BindingOf(a).clientId, a.nonce) {
        return Err(Identity);
      }
      if !EmailHolds(identity, accountRef, sharedMailboxBypass) {
        return Err(Identity);
      }
      r := CarryForward(a, accountRef, response, expiresAt, now, evidence, me);
    }

    method ExchangeAndIdentify(a: OAuthState, code: string, accountRef: string, verifier: Option<string>,
                               ghost me: CallId)
      returns (r: Result<CompleteOutcome, OauthError>)
      requires db.Valid() && db.At(me, CallOf(a, VerifierRead(accountRef, verifier)))
      modifies db
      ensures db.Valid() && Answered(a, accountRef, me, r)
    {
      db.Others(me);
      var granted := ExchangeCode(CodeForm(code, verifier, BindingOf(a).clientId), code, a, me);
      db.Check(me, AccountLane.ExchangeCode(granted), CallOf(a, VerifierRead(accountRef, verifier)));
      if granted.None? {
        return Err(TransportFailed);
      }
      var response := granted.value;
      if response.expiresIn.None? || response.expiresIn.value <= 0 {
        return Err(Unstoreable);
      }
      r := Identify(a, accountRef, response, db.clock + response.expiresIn.value, db.clock, me);
    }

    /** The PKCE verifier, from the pending row alone. */
    method FetchVerifier(a: OAuthState, code: string, accountRef: string, ghost me: CallId)
      returns (r: Result<CompleteOutcome, OauthError>)
      requires db.Valid() && db.At(me, CallOf(a, AccountRead(accountRef)))
      modifies db
      ensures db.Valid() && Answered(a, accountRef, me, r)
    {
      db.Others(me);
      var verifier := None;
      if BindingOf(a).pkceS256 {
        var up := db.Reachable(me);
        if !up {
          db.GiveUp(me);
          return Err(Db);
        }
        verifier := if a.accountId in db.accounts then db.accounts[a.accountId].verifier else None;
      }
      db.Check(me, ReadVerifier, CallOf(a, AccountRead(accountRef)));
      if BindingOf(a).pkceS256 && (verifier.None? || verifier.value == "") {
        return Err(BadState);
      }
      r := ExchangeAndIdentify(a, code, accountRef, verifier, me);
    }

    /** From the verified state on: the account must be there, this provider's, and pending. */
    method CompletePending(a: OAuthState, code: string, ghost me: CallId)
      returns (r: Result<CompleteOutcome, OauthError>, ghost accountRef: string)
      requires db.Valid() && db.At(me, CallOf(a, StateVerified))
      modifies db
      ensures db.Valid() && Answered(a, accountRef, me, r)
      ensures r.Ok? ==> IsConfigured(a.provider)
    {
      accountRef := "";
      db.Others(me);
      var up := db.Reachable(me);
      if !up {
        db.GiveUp(me);
        return Err(Db), accountRef;
      }
      db.Check(me, ReadAccount, CallOf(a, StateVerified));
      if a.accountId !in db.accounts {
        return Err(UnknownAccount), accountRef;
      }
      var account := db.accounts[a.accountId];
      if account.provider != a.provider || account.status != Pending {
        return Err(BadState), accountRef;
      }
      if !Configured(Service, SetupOf(a.provider)) {
        db.GiveUp(me);
        return Err(ProviderUnconfigured), accountRef;
      }
      accountRef := account.accountRef;
      r := FetchVerifier(a, code, account.accountRef, me);
    }

    /** An Ok passed audience, nonce and e-mail as the state and the configuration have them, and the expiry it
        reports lies after the clock reading it was computed from; that no other completion of the account
        answers Ok, and that the store had the same expiry first, is `OneOkPerAccount` and `OkMeans`, and what
        credential and row are made of, `CompletionOrigins.CompletedFrom`. */
    method CompleteState(a: OAuthState, code: string, ghost me: CallId) returns (r: Result<CompleteOutcome, OauthError>)
      requires db.Valid() && db.Starts(me)
      modifies db
      ensures db.Valid()
      ensures r.Err? ==> db.At(me, Ended) && Blames(r.error, a, me)
      ensures r.Ok? ==> Answered(a, r.value.accountRef, me, r) && Lawful(a, r.value, me)
    {
      db.Enter(me, CallOf(a, StateVerified));
      ghost var accountRef;
      r, accountRef := CompletePending(a, code, me);
      if r.Ok? { OkMeans(db.worlds, db.labels, |db.labels|, me); }
    }

    /** The completion passed its checks, held to the state's nonce and to what is configured for its provider. */
    ghost predicate Lawful(a: OAuthState, o: CompleteOutcome, me: CallId)
      reads db
      requires db.worlds != []
    {
      && me in db.Now().calls && db.Now().calls[me].Completed? && IsConfigured(a.provider)
      && var (done, p) := (db.Now().calls[me], providers[a.provider]);
         && done.binding == Binding(a.nonce, p.setup.clientId.value, p.pkceS256, p.defaultScopes, sharedMailboxBypass)
         && AudienceAndNonceHold(done.evidence.identity, done.evidence.token, p.setup.clientId.value, a.nonce)
         && EmailHolds(done.evidence.identity, o.accountRef, sharedMailboxBypass)
         && o.expiresAt > done.now
    }

    /** A completion request: nothing happens for a state that does not verify. An Ok carries out the
        authorization of a well-signed state that had not expired, and passed its checks. */
    method Complete(lib: Libraries, key: seq<Byte>, token: string, code: string, ghost me: CallId)
      returns (r: Result<CompleteOutcome, OauthError>)
      requires db.Valid() && db.Starts(me)
      modifies db
      ensures db.Valid()
      ensures Verify(lib, key, token, old(db.clock)).Err? ==> r == Err(BadState) && db.worlds == old(db.worlds)
      ensures Verify(lib, key, token, old(db.clock)).Ok? ==>
        var a := Verify(lib, key, token, old(db.clock)).value;
        && (r.Err? ==> db.At(me, Ended) && Blames(r.error, a, me))
        && (r.Ok? ==> Answered(a, r.value.accountRef, me, r) && Lawful(a, r.value, me))
    {
      var verified := Verify(lib, key, token, db.clock);
      if verified.Err? {
        return Err(BadState);
      }
      r := CompleteState(verified.value, code, me);
    }

    // ---------------------------------------------------------------- disconnect

    /** Neither pending nor active. */
    predicate Over(id: AccountId)
      reads db
    {
      id in db.accounts ==> db.accounts[id].status != Pending && db.accounts[id].status != Active
    }

    /** An Ok is what the lane calls a disconnect that is done, with the account over; an error ends the call. */
    ghost predicate DisconnectAnswered(id: AccountId, me: CallId, r: Result<(), OauthError>)
      reads db
      requires db.worlds != []
    {
      if r.Ok? then db.At(me, DisconnectDone(id)) && Over(id) else db.At(me, Ended) && StopsAt(r.error, id, me)
    }

    /** What kept a disconnect from its end. */
    ghost predicate StopsAt(e: OauthError, id: AccountId, me: CallId)
      reads db
    {
      match e
      case UnknownAccount => id !in db.accounts
      case StoreFailed => exists f | f != NotFound :: db.LastWas(me, OfDisconnect(Withdraw(Some(f))))
      case Db => me in db.outages || id in db.locked
      case _ => false
    }

    /** What an Ok means for the store is `Withdrawals.DisconnectLeavesLive`, and for whom it holds. */
    method Disconnect(id: AccountId, ghost me: CallId) returns (r: Result<(), OauthError>)
      requires db.Valid() && db.Starts(me)
      modifies db
      ensures db.Valid() && DisconnectAnswered(id, me, r)
    {
      db.Enter(me, Disconnecting(id, Looking));
      db.Others(me);
      var up := db.Reachable(me);
      if !up {
        db.GiveUp(me);
        return Err(Db);
      }
      db.Step(me, OfDisconnect(FindAccount));
      if id !in db.accounts {
        return Err(UnknownAccount);
      }
      var account := db.accounts[id];
      if account.status == AccountStatus.Revoked {
        return Ok(());
      }
      r := RevokeAndMark(id, account.provider, account.accountRef, me);
    }

    method RevokeAndMark(id: AccountId, provider: string, accountRef: string, ghost me: CallId)
      returns (r: Result<(), OauthError>)
      requires db.Valid() && db.At(me, Disconnecting(id, Found(provider, accountRef)))
      modifies db
      ensures db.Valid() && DisconnectAnswered(id, me, r)
    {
      db.Others(me);
      var failure, injected := db.RevokeToken(Scope(db.company, provider, accountRef));
      db.Step(me, OfDisconnect(Withdraw(injected)));
      if failure.Some? && failure.value != NotFound {
        return Err(StoreFailed);
      }
      r := MarkRevoked(id, me);
    }

    /** The guarded UPDATE, once nobody holds the row. */
    method MarkRevoked(id: AccountId, ghost me: CallId) returns (r: Result<(), OauthError>)
      requires db.Valid() && db.At(me, Disconnecting(id, Withdrawn))
      modifies db
      ensures db.Valid() && DisconnectAnswered(id, me, r)
    {
      db.Others(me);
      var up := db.Reachable(me);
      if !up || id in db.locked {
        db.GiveUp(me);
        return Err(Db);
      }
      db.MarkRevoked(id);
      db.Step(me, OfDisconnect(AccountLane.MarkRevoked));
      return Ok(());
    }

    // ---------------------------------------------------------------- refresh

    /** A refresh of the service that has come to `phase`. */
    ghost predicate RefreshOfService(call: Call, id: AccountId, report: Report, phase: Phase) {
      && call.Refreshing? && call.sweep.kind == Service && call.sweep.window == refreshWindow
      && call.sweep.report == report && call.id == id && call.phase == phase
    }

    /** After a refresh: on with the sweep, or given up with an error. */
    ghost predicate Back(ok: bool, before: Call, after: Report, me: CallId)
      reads db
      requires db.worlds != [] && before.Refreshing?
    {
      me in db.Now().calls && db.Now().calls[me] == if ok then Sweeping(before.sweep.(report := after)) else Ended
    }

    /** The database left the call without an answer, or the store turned its rotation down. */
    ghost predicate GaveUp(me: CallId)
      reads db
    {
      me in db.outages || exists f :: db.LastWas(me, OfRefresh(RefreshAct.Rotate(f)))
    }

    /** A step that reads the credential under what this service has for the provider. */
    predicate ReadsUnder(l: Label, me: CallId, provider: string) {
      && l.caller == me && l.act.OfRefresh? && l.act.refresh.ReadBundle?
      && (provider in providers ==> l.act.refresh.setup == providers[provider].setup)
      && (provider !in providers ==> !l.act.refresh.setup.resolvedAtBuild)
    }

    /** Rollback: the row stays due. */
    method LeaveDue(id: AccountId, summary: Report, ghost call: Call, ghost me: CallId)
      returns (ok: bool, after: Report)
      requires db.Valid() && db.At(me, call) && RefreshOfService(call, id, summary, LeftDue)
      modifies db
      ensures db.Valid() && ok && Back(ok, call, after, me) && old(db.labels) <= db.labels
      ensures db.accounts == old(db.accounts)
    {
      db.EndRefresh(id, call, me);
      return true, summary.(skipped := summary.skipped + 1);
    }

    /** UPDATE … SET status = 'expired', pkce_verifier = NULL WHERE id = $1 AND status = 'active'; COMMIT. */
    method ExpireActive(id: AccountId, summary: Report, ghost cause: Death, ghost call: Call, ghost me: CallId)
      returns (ok: bool, after: Report)
      requires db.Valid() && db.At(me, call) && RefreshOfService(call, id, summary, Dying(cause))
      modifies db
      ensures db.Valid() && Back(ok, call, after, me) && old(db.labels) <= db.labels && (!ok ==> GaveUp(me))
      ensures db.accounts == if ok then SettledIn(old(db.accounts), call) else old(db.accounts)
    {
      var up := db.Reachable(me);
      if !up {
        db.LoseRefresh(id, call, me);
        return false, summary;
      }
      if id in db.accounts && db.accounts[id].status == Active {
        db.accounts := db.accounts[id := db.accounts[id].(status := AccountStatus.Expired, verifier := None)];
      }
      db.EndRefresh(id, call, me);
      return true, summary.(expired := summary.expired + 1);
    }

    /** Only the mirror was stale. */
    method Resync(id: AccountId, summary: Report, expiresAt: int, ghost call: Call, ghost me: CallId)
      returns (ok: bool, after: Report)
      requires db.Valid() && db.At(me, call) && RefreshOfService(call, id, summary, Stale(expiresAt))
      modifies db
      ensures db.Valid() && Back(ok, call, after, me) && old(db.labels) <= db.labels && (!ok ==> GaveUp(me))
      ensures db.accounts == if ok then SettledIn(old(db.accounts), call) else old(db.accounts)
    {
      var up := db.Reachable(me);
      if !up {
        db.LoseRefresh(id, call, me);
        return false, summary;
      }
      if id in db.accounts {
        db.accounts := db.accounts[id := db.accounts[id].(expiresAt := Some(expiresAt))];
      }
      db.EndRefresh(id, call, me);
      return true, summary.(resynced := summary.resynced + 1);
    }

    method Mirror(id: AccountId, summary: Report, successor: Bundle, now: int, ghost call: Call, ghost me: CallId)
      returns (ok: bool, after: Report)
      requires db.Valid() && db.At(me, call) && RefreshOfService(call, id, summary, Stored(successor, now))
      modifies db
      ensures db.Valid() && Back(ok, call, after, me) && old(db.labels) <= db.labels && (!ok ==> GaveUp(me))
      ensures db.accounts == if ok then SettledIn(old(db.accounts), call) else old(db.accounts)
    {
      var up := db.Reachable(me);
      if !up {
        db.LoseRefresh(id, call, me);
        return false, summary;
      }
      if id in db.accounts {
        var a := db.accounts[id];
        var scopes := if successor.grantedScope.Some? then successor.grantedScope.value else a.scopes;
        db.accounts := db.accounts[id := a.(expiresAt := Some(successor.expiresAt), scopes := scopes,
                                            refreshedAt := Some(now))];
      }
      db.EndRefresh(id, call, me);
      return true, summary.(refreshed := summary.refreshed + 1);
    }

    /** A refused rotation ends the whole call with an error, the row rolled back. */
    method RotateAndMirror(id: AccountId, provider: string, accountRef: string, summary: Report, successor: Bundle,
                           now: int, ghost call: Call, ghost me: CallId)
      returns (ok: bool, after: Report)
      requires db.Valid() && db.At(me, call) && RefreshOfService(call, id, summary, Successor(successor, now))
      requires call.provider == provider && call.accountRef == accountRef
      modifies db
      ensures db.Valid() && Back(ok, call, after, me) && old(db.labels) <= db.labels && (!ok ==> GaveUp(me))
    {
      db.Others(me);
      var failure := db.RotateHeld(Service, id, provider, accountRef, successor, call, me);
      if failure.Some? {
        return false, summary;
      }
      db.Others(me);
      ok, after := Mirror(id, summary, successor, now, call.(phase := Stored(successor, now)), me);
    }

    /** Without a positive lifetime the response is left; else the successor has what it leaves out from the prior. */
    method RotateGranted(id: AccountId, provider: string, accountRef: string, summary: Report, prior: Bundle,
                         r: TokenResponse, now: int, ghost call: Call, ghost me: CallId)
      returns (ok: bool, after: Report)
      requires db.Valid() && now == db.clock
      requires RefreshOfService(call, id, summary, PhaseAfterExchange(Service, prior, now, now, Granted(r)))
      requires db.At(me, call) && call.provider == provider && call.accountRef == accountRef
      modifies db
      ensures db.Valid() && Back(ok, call, after, me) && old(db.labels) <= db.labels && (!ok ==> GaveUp(me))
    {
      if r.expiresIn.None? || r.expiresIn.value <= 0 {
        ok, after := LeaveDue(id, summary, call, me);
        return;
      }
      var refresh := if r.refreshToken.Some? then r.refreshToken else prior.refreshToken;
      var scope := if r.scope.Some? then r.scope else prior.grantedScope;
      var successor := Bundle(r.accessToken, refresh, now + r.expiresIn.value, scope);
      ok, after := RotateAndMirror(id, provider, accountRef, summary, successor, now, call, me);
    }

    method ExchangeAndRotate(id: AccountId, provider: string, accountRef: string, summary: Report, prior: Bundle,
                             clientId: string, ghost sentAt: int, ghost call: Call, ghost me: CallId)
      returns (ok: bool, after: Report)
      requires db.Valid() && db.At(me, call) && RefreshOfService(call, id, summary, HasBundle(prior, sentAt))
      requires call.provider == provider && call.accountRef == accountRef && db.ReadFor(me, clientId)
      modifies db
      ensures db.Valid() && Back(ok, call, after, me) && old(db.labels) <= db.labels && (!ok ==> GaveUp(me))
    {
      db.Others(me);
      var answer := db.ExchangeHeld(provider, RefreshForm(clientId, prior.refreshToken), call, me);
      if answer.InvalidGrant? {
        ok, after := ExpireActive(id, summary, DeadGrant, call.(phase := Dying(DeadGrant)), me);
      } else if answer.Refused? {
        ok, after := LeaveDue(id, summary, call.(phase := LeftDue), me);
      } else {
        ok, after := RotateGranted(id, provider, accountRef, summary, prior, answer.response, db.clock,
                                   db.Now().calls[me], me);
      }
    }

    /** The store is the expiry authority: a bundle still fresh is only mirrored. Where a successor comes from is
        `RefreshOrigins.StoredFrom`, and what is committed, `RefreshOrigins.SettleCommits`. */
    method RefreshClaimed(id: AccountId, provider: string, accountRef: string, summary: Report, ghost call: Call,
                          ghost me: CallId)
      returns (ok: bool, after: Report)
      requires db.Valid() && db.At(me, call) && RefreshOfService(call, id, summary, Held)
      requires call.provider == provider && call.accountRef == accountRef
      modifies db
      ensures db.Valid() && Back(ok, call, after, me) && old(db.labels) <= db.labels && (!ok ==> GaveUp(me))
      ensures exists k :: |old(db.labels)| <= k < |db.labels| && ReadsUnder(db.labels[k], me, provider)
    {
      db.Others(me);
      var setup := SetupOf(provider);
      var read := db.ReadHeld(provider, accountRef, setup, call, me);
      ghost var k := |db.labels| - 1;
      assert ReadsUnder(db.labels[k], me, provider);
      if read.Err? {
        if read.error == NotFound || read.error == NotActive || read.error == StoreFailure.Expired {
          ok, after := ExpireActive(id, summary, Unreadable, call.(phase := Dying(Unreadable)), me);
        } else {
          ok, after := LeaveDue(id, summary, call.(phase := LeftDue), me);
        }
      } else {
        ok, after := RefreshRead(id, provider, accountRef, summary, read.value, setup, call, me);
      }
      assert ReadsUnder(db.labels[k], me, provider);
    }

    method RefreshRead(id: AccountId, provider: string, accountRef: string, summary: Report, prior: Bundle,
                       setup: Setup, ghost call: Call, ghost me: CallId)
      returns (ok: bool, after: Report)
      requires db.Valid() && RefreshOfService(call, id, summary, Held)
      requires call.provider == provider && call.accountRef == accountRef
      requires db.At(me, call.(phase := PhaseAfterRead(Service, Configured(Service, setup), refreshWindow, db.clock,
                                                       Ok(prior))))
      requires setup.clientId.Some? ==> db.ReadFor(me, setup.clientId.value)
      modifies db
      ensures db.Valid() && Back(ok, call, after, me) && old(db.labels) <= db.labels && (!ok ==> GaveUp(me))
    {
      if prior.expiresAt - refreshWindow >= db.clock {
        ok, after := Resync(id, summary, prior.expiresAt, call.(phase := Stale(prior.expiresAt)), me);
      } else if prior.refreshToken.None? {
        ok, after := ExpireActive(id, summary, NoRefreshToken, call.(phase := Dying(NoRefreshToken)), me);
      } else if !Configured(Service, setup) {
        ok, after := LeaveDue(id, summary, call.(phase := LeftDue), me);
      } else {
        ok, after := ExchangeAndRotate(id, provider, accountRef, summary, prior, setup.clientId.value, db.clock,
                                       call.(phase := HasBundle(prior, db.clock)), me);
      }
    }

    // ---------------------------------------------------------------- refresh_due

    /** One turn of the sweep; nothing keeps it from an account it attempted before. */
    method Turn(summary: Report, ghost left: nat, ghost attempted: seq<AccountId>, ghost me: CallId)
      returns (round: Round, after: Report)
      requires db.Valid() && left > 0 && db.At(me, Sweeping(Sweep(Service, refreshWindow, left, attempted, summary)))
      modifies db
      ensures db.Valid() && me in db.Now().calls && old(db.labels) <= db.labels
      ensures db.Now().calls[me] ==
        match round
        case Lost => Ended
        case NothingDue => SweepDone(Sweep(Service, refreshWindow, left, attempted, after))
        case Attempted(id) => Sweeping(Sweep(Service, refreshWindow, left - 1, attempted + [id], after))
      ensures round.Lost? ==> GaveUp(me)
    {
      after := summary;
      db.Others(me);
      var up := db.Reachable(me);
      if !up {
        db.GiveUp(me);
        return Lost, after;
      }
      var claimed := db.ClaimOldest(refreshWindow, [], Sweep(Service, refreshWindow, left, attempted, summary), me);
      if claimed.None? {
        return NothingDue, after;
      }
      var id := claimed.value;
      var ok;
      ok, after := RefreshClaimed(id, db.accounts[id].provider, db.accounts[id].accountRef, summary,
                                  db.Now().calls[me], me);
      round := if ok then Attempted(id) else Lost;
    }

    /** A service sweep that has spent its batch, or found nothing more to claim. */
    ghost predicate Swept(report: Report, me: CallId)
      reads db
      requires db.worlds != []
    {
      && me in db.Now().calls && db.Now().calls[me].SweepDone?
      && var s := db.Now().calls[me].sweep;
         && s.kind == Service && s.window == refreshWindow && |s.attempted| + s.left == refreshBatchSize
         && s.report == report
    }

    method SweepBatch(ghost me: CallId) returns (r: Result<Report, OauthError>)
      requires db.Valid()
      requires db.At(me, Sweeping(Sweep(Service, refreshWindow, refreshBatchSize, [], Report(0, 0, 0, 0))))
      modifies db
      ensures db.Valid() && old(db.labels) <= db.labels
      ensures r.Ok? ==> Swept(r.value, me)
      ensures r.Err? ==> db.At(me, Ended) && GaveUp(me)
    {
      var summary := NONE_YET;
      ghost var attempted := [];
      for i := 0 to refreshBatchSize
        invariant db.Valid() && old(db.labels) <= db.labels && |attempted| == i
        invariant db.At(me, Sweeping(Sweep(Service, refreshWindow, refreshBatchSize - i, attempted, summary)))
      {
        var round;
        round, summary := Turn(summary, refreshBatchSize - i, attempted, me);
        if round.Lost? {
          return Err(StoreFailed);
        }
        if round.NothingDue? {
          return Ok(summary);
        }
        attempted := attempted + [round.id];
      }
      db.FinishBatch(me, Sweep(Service, refreshWindow, 0, attempted, summary));
      return Ok(summary);
    }

    /** The summary counts every attempt, an account attempted twice twice. The sweep had the whole batch of this
        service, and reached whoever was due, had only sweeps run since and no attempt left its account due. */
    method RefreshDue(ghost me: CallId) returns (r: Result<Report, OauthError>)
      requires db.Valid() && db.Starts(me)
      modifies db
      ensures db.Valid()
      ensures r.Err? ==> db.At(me, Ended) && GaveUp(me)
      ensures r.Ok? ==>
        && Swept(r.value, me)
        && r.value.refreshed + r.value.resynced + r.value.expired + r.value.skipped
           == |db.Now().calls[me].sweep.attempted|
        && |old(db.labels)| < |db.labels|
        && db.labels[|old(db.labels)|]
           == Label(me, Begin(Sweeping(Sweep(Service, refreshWindow, refreshBatchSize, [], Report(0, 0, 0, 0)))))
        && CoversUnlessLeftDue(db.worlds, db.labels, |old(db.labels)|, me, refreshWindow, refreshBatchSize)
    {
      ghost var start := |db.labels|;
      ghost var begin := Label(me, Begin(Sweeping(Sweep(Service, refreshWindow, refreshBatchSize, [], NONE_YET))));
      db.Enter(me, begin.act.first);
      assert db.labels[start] == begin;
      r := SweepBatch(me);
      assert db.labels[start] == begin;
      if r.Ok? {
        ReportAddsUp(db.worlds, db.labels, |db.labels|, me);
        FinishedSweepCovers(db.worlds, db.labels, start, me, refreshWindow, refreshBatchSize);
      }
    }

    // ---------------------------------------------------------------- ensure_fresh

    method Status(id: AccountId, ghost me: CallId) returns (r: Result<Account, OauthError>)
      requires db.Valid() && me in db.Now().calls && !Unfinished(db.Now().calls[me])
      modifies db
      ensures db.Valid() && me in db.Now().calls && db.Now().calls[me] == old(db.Now().calls[me])
      ensures r.Ok? ==> id in db.accounts && r.value == db.accounts[id]
      ensures r.Err? ==> if r.error == Db then me in db.outages else r.error == UnknownAccount && id !in db.accounts
    {
      db.Others(me);
      var up := db.Reachable(me);
      if !up {
        return Err(Db);
      }
      r := if id in db.accounts then Ok(db.accounts[id]) else Err(UnknownAccount);
    }

    /** The account needed no refresh or could not be claimed, or this call refreshed it, once. */
    predicate AloneOrTried(call: Call, id: AccountId) {
      || call == LeftAlone(id, refreshWindow)
      || (call.SweepDone? && call.sweep.kind == Service && call.sweep.window == refreshWindow
          && call.sweep.attempted == [id] && Total(call.sweep.report) == 1)
    }

    /** Claim this account if it is active and free, and refresh it. */
    method RefreshIfFree(id: AccountId, ghost me: CallId) returns (ok: bool)
      requires db.Valid() && db.At(me, OnUse(id, refreshWindow, true))
      modifies db
      ensures db.Valid() && me in db.Now().calls && !Unfinished(db.Now().calls[me])
      ensures if ok then AloneOrTried(db.Now().calls[me], id) else GaveUp(me)
    {
      db.Others(me);
      var up := db.Reachable(me);
      if !up {
        db.GiveUp(me);
        return false;
      }
      var claimed := db.ClaimOne(id, refreshWindow, me);
      if !claimed {
        return true;
      }
      ok := RefreshTaken(id, db.accounts[id].provider, db.accounts[id].accountRef, db.Now().calls[me], me);
    }

    method RefreshTaken(id: AccountId, provider: string, accountRef: string, ghost call: Call, ghost me: CallId)
      returns (ok: bool)
      requires db.Valid() && db.At(me, call) && RefreshOfService(call, id, NONE_YET, Held)
      requires call.provider == provider && call.accountRef == accountRef
      requires call.sweep.left == 0 && call.sweep.attempted == [id]
      modifies db
      ensures db.Valid() && me in db.Now().calls && !Unfinished(db.Now().calls[me])
      ensures if ok then AloneOrTried(db.Now().calls[me], id) else GaveUp(me)
    {
      var summary;
      ok, summary := RefreshClaimed(id, provider, accountRef, NONE_YET, call, me);
      if ok {
        db.FinishBatch(me, db.Now().calls[me].sweep);
        ReportAddsUp(db.worlds, db.labels, |db.labels|, me);
      }
    }

    /** An Ok of `ensure_fresh` returns the row as it stands, for an account that needed no refresh or could
        not be claimed, or that this call has just refreshed; which of the two, for this service's window. */
    ghost predicate Freshened(id: AccountId, me: CallId, r: Result<Account, OauthError>)
      reads db
      requires db.worlds != []
    {
      && me in db.Now().calls && !Unfinished(db.Now().calls[me])
      && match r
         case Ok(a) => id in db.accounts && a == db.accounts[id] && AloneOrTried(db.Now().calls[me], id)
         case Err(UnknownAccount) => id !in db.accounts
         case Err(Db) => me in db.outages
         case Err(e) => e == StoreFailed && GaveUp(me)
    }

    method RefreshAndReport(id: AccountId, ghost me: CallId) returns (r: Result<Account, OauthError>)
      requires db.Valid() && db.At(me, OnUse(id, refreshWindow, true))
      modifies db
      ensures db.Valid() && Freshened(id, me, r)
    {
      var ok := RefreshIfFree(id, me);
      if !ok {
        return Err(StoreFailed);
      }
      r := Status(id, me);
    }

    /** When nothing is to be done is `AccountResults.LeftAloneMeans`. */
    method EnsureFresh(id: AccountId, ghost me: CallId) returns (r: Result<Account, OauthError>)
      requires db.Valid() && db.Starts(me)
      modifies db
      ensures db.Valid() && Freshened(id, me, r)
    {
      db.Enter(me, OnUse(id, refreshWindow, false));
      r := FetchAndFreshen(id, me);
    }

    method FetchAndFreshen(id: AccountId, ghost me: CallId) returns (r: Result<Account, OauthError>)
      requires db.Valid() && db.At(me, OnUse(id, refreshWindow, false))
      modifies db
      ensures db.Valid() && Freshened(id, me, r)
    {
      db.Others(me);
      var up := db.Reachable(me);
      if !up {
        db.GiveUp(me);
        return Err(Db);
      }
      db.Step(me, OfUse(CheckDue));
      if id !in db.accounts {
        return Err(UnknownAccount);
      }
      var account := db.accounts[id];
      if account.status != Active {
        return Ok(account);
      }
      if account.expiresAt.Some? && account.expiresAt.value - refreshWindow < db.clock {
        r := RefreshAndReport(id, me);
      } else {
        r := Status(id, me);
      }
    }
  }
}
