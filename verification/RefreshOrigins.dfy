/** Where everything a refresh holds, stores and writes comes from: the credential it read, the provider's
    answer it was granted, and the columns of its commit, for any refresh in any run. */
module RefreshOrigins {
  import opened Outcomes
  import opened CredentialStore
  import opened AccountRows
  import opened AccountLane
  import opened AccountInvariants
  import opened AccountResults

  function ScopeIn(w: World, call: Call): Scope
    requires call.Refreshing?
  {
    Scope(w.company, call.provider, call.accountRef)
  }

  /** A step of call `c`, which was refreshing and still is, unless its call is over. */
  ghost predicate RefreshStep(worlds: seq<World>, labels: seq<Label>, k: nat, c: CallId, a: RefreshAct) {
    IsRun(worlds, labels) && k < |labels| && labels[k] == Label(c, OfRefresh(a))
  }

  /** The same refresh, at another point of it. */
  predicate SameTurn(a: Call, b: Call) {
    a.Refreshing? && b.Refreshing? && a == b.(phase := a.phase)
  }

  // ---------------------------------------------------------------- what each step decides

  /** The job: configuration first, the store next, the bundle's own expiry never. */
  predicate JobDecides(w: World, s: Scope, setup: Setup, injected: Option<StoreFailure>, p: Phase) {
    var read := Readable(w, s);
    if !setup.resolvesNow || setup.clientId.None? then p == LeftDue
    else if injected == Some(Transport) then p == LeftDue
    else if injected.Some? || read.None? then p == Dying(Unreadable)
    else if read.value.refreshToken.None? then p == Dying(NoRefreshToken)
    else p == HasBundle(read.value, w.clock)
  }

  /** The service: the store first, a credential still fresh only mirrored, configuration last. */
  predicate ServiceDecides(w: World, s: Scope, window: int, setup: Setup, injected: Option<StoreFailure>, p: Phase) {
    var read := Readable(w, s);
    if injected.Some? && injected.value !in {NotFound, NotActive, StoreFailure.Expired} then p == LeftDue
    else if injected.Some? || read.None? then p == Dying(Unreadable)
    else if w.clock + window <= read.value.expiresAt then p == Stale(read.value.expiresAt)
    else if read.value.refreshToken.None? then p == Dying(NoRefreshToken)
    else if !setup.resolvedAtBuild || setup.clientId.None? || Blank(setup.clientId.value) then p == LeftDue
    else p == HasBundle(read.value, w.clock)
  }

  lemma ReadDecides(worlds: seq<World>, labels: seq<Label>, k: nat, c: CallId, setup: Setup,
                    injected: Option<StoreFailure>)
    requires RefreshStep(worlds, labels, k, c, ReadBundle(setup, injected))
    ensures c in worlds[k].calls && worlds[k].calls[c].Refreshing? && c in worlds[k + 1].calls
    ensures
      var (w, v, call, next) := (worlds[k], worlds[k + 1], worlds[k].calls[c], worlds[k + 1].calls[c]);
      && call.phase == Held && SameTurn(call, next) && v.store == w.store && v.accounts == w.accounts
      && match call.sweep.kind
         case Job => JobDecides(w, ScopeIn(w, call), setup, injected, next.phase)
         case Service => ServiceDecides(w, ScopeIn(w, call), call.sweep.window, setup, injected, next.phase)
  {
    assert StepAt(worlds, labels, k);
  }

  /** What comes of the provider's answer, `reading` being when it is taken to be dated. */
  predicate ExchangeYields(prior: Bundle, reading: int, answer: ExchangeAnswer, p: Phase) {
    match answer
    case InvalidGrant => p == Dying(DeadGrant)
    case Refused => p == LeftDue
    case Granted(r) =>
      if r.expiresIn.None? || r.expiresIn.value <= 0 then p == LeftDue
      else p.Successor? && p.reading == reading && Succeeds(prior, reading, r, p.successor)
  }

  /** `b` has what the response has, and what it leaves out from the credential that was read. */
  predicate Succeeds(prior: Bundle, reading: int, r: TokenResponse, b: Bundle) {
    && b.accessToken == r.accessToken
    && (r.refreshToken.Some? ==> b.refreshToken == r.refreshToken)
    && (r.refreshToken.None? ==> b.refreshToken == prior.refreshToken)
    && (r.scope.Some? ==> b.grantedScope == r.scope)
    && (r.scope.None? ==> b.grantedScope == prior.grantedScope)
    && r.expiresIn.Some? && r.expiresIn.value > 0 && b.expiresAt == reading + r.expiresIn.value
  }

  lemma ExchangeDecides(worlds: seq<World>, labels: seq<Label>, k: nat, c: CallId, answer: ExchangeAnswer)
    requires RefreshStep(worlds, labels, k, c, Exchange(answer))
    ensures c in worlds[k].calls && worlds[k].calls[c].Refreshing? && c in worlds[k + 1].calls
    ensures
      var (w, v, call, next) := (worlds[k], worlds[k + 1], worlds[k].calls[c], worlds[k + 1].calls[c]);
      && call.phase.HasBundle? && SameTurn(call, next) && v.store == w.store && v.accounts == w.accounts
      && ExchangeYields(call.phase.bundle, if call.sweep.kind == Job then call.phase.sentAt else w.clock, answer,
                        next.phase)
  {
    assert StepAt(worlds, labels, k);
  }

  /** The rotation replaces a live credential by the successor. If the store has none, or fails, the job skips
      or expires the account, and the service gives up. */
  lemma RotateDecides(worlds: seq<World>, labels: seq<Label>, k: nat, c: CallId, injected: Option<StoreFailure>)
    requires RefreshStep(worlds, labels, k, c, RefreshAct.Rotate(injected))
    ensures c in worlds[k].calls && worlds[k].calls[c].Refreshing? && c in worlds[k + 1].calls
    ensures
      var (w, v, call, next) := (worlds[k], worlds[k + 1], worlds[k].calls[c], worlds[k + 1].calls[c]);
      var s := ScopeIn(w, call);
      && call.phase.Successor? && v.accounts == w.accounts
      && if injected.None? && s in w.store && w.store[s].Live? then
           && v.store == w.store[s := Live(call.phase.successor)]
           && next == call.(phase := Stored(call.phase.successor, call.phase.reading))
         else
           && v.store == w.store
           && next == if call.sweep.kind == Service then Ended
                      else call.(phase := if injected == Some(Transport) then LeftDue else Dying(RotateRefused))
  {
    assert StepAt(worlds, labels, k);
  }

  /** The columns a refresh's commit leaves, and the outcome it is counted as. */
  predicate Commits(kind: Kind, p: Phase, began: int, a: Account, b: Account, was: Report, now: Report) {
    match p
    case LeftDue =>
      b == a && now == was.(skipped := was.skipped + 1)
    case Stale(e) =>
      && b == Account(a.provider, a.accountRef, Active, a.scopes, None, Some(e), a.refreshedAt)
      && now == was.(resynced := was.resynced + 1)
    case Dying(_) =>
      && b == Account(a.provider, a.accountRef, AccountStatus.Expired, a.scopes, None, a.expiresAt, a.refreshedAt)
      && now == was.(expired := was.expired + 1)
    case Stored(n, reading) =>
      && now == was.(refreshed := was.refreshed + 1)
      && (kind == Job ==>
            b == Account(a.provider, a.accountRef, Active, a.scopes, None, Some(n.expiresAt), Some(began)))
      && (kind == Service && n.grantedScope.Some? ==>
            b == Account(a.provider, a.accountRef, Active, n.grantedScope.value, None, Some(n.expiresAt),
                         Some(reading)))
      && (kind == Service && n.grantedScope.None? ==>
            b == Account(a.provider, a.accountRef, Active, a.scopes, None, Some(n.expiresAt), Some(reading)))
    case _ => false
  }

  /** A refresh commits its own row, which it finds active, and gives the lock back; nothing else moves. */
  lemma SettleCommits(worlds: seq<World>, labels: seq<Label>, k: nat, c: CallId)
    requires RefreshStep(worlds, labels, k, c, Settle)
    ensures c in worlds[k].calls && worlds[k].calls[c].Refreshing? && c in worlds[k + 1].calls
    ensures
      var (w, v, call, next) := (worlds[k], worlds[k + 1], worlds[k].calls[c], worlds[k + 1].calls[c]);
      var id := call.id;
      && id in w.accounts && w.accounts[id].status == Active && id in v.accounts
      && v.accounts == w.accounts[id := v.accounts[id]] && v.store == w.store && v.locks == w.locks - {id}
      && next.Sweeping? && next.sweep == call.sweep.(report := next.sweep.report)
      && Commits(call.sweep.kind, call.phase, call.began, w.accounts[id], v.accounts[id], call.sweep.report,
                 next.sweep.report)
  {
    assert StepAt(worlds, labels, k);
    RunSound(worlds, labels, k);
    var (w, call) := (worlds[k], worlds[k].calls[c]);
    assert Pinned(w, c, call);
    assert Shaped(w.accounts[call.id]);
  }

  // ---------------------------------------------------------------- over runs

  /** Step `k` of this refresh read that credential of its own scope. */
  ghost predicate ReadAt(worlds: seq<World>, labels: seq<Label>, k: nat, c: CallId, call: Call, prior: Bundle) {
    && k < |labels| < |worlds| && call.Refreshing?
    && labels[k].caller == c && labels[k].act.OfRefresh? && labels[k].act.refresh.ReadBundle?
    && c in worlds[k].calls && worlds[k].calls[c] == call.(phase := Held)
    && Readable(worlds[k], ScopeIn(worlds[k], call)) == Some(prior)
  }

  lemma BundleFrom(worlds: seq<World>, labels: seq<Label>, n: nat, c: CallId) returns (k: nat)
    requires IsRun(worlds, labels) && n <= |labels| && c in worlds[n].calls
    requires worlds[n].calls[c].Refreshing? && worlds[n].calls[c].phase.HasBundle?
    ensures
      var call := worlds[n].calls[c];
      k < n && ReadAt(worlds, labels, k, c, call, call.phase.bundle) && call.phase.sentAt == worlds[k].clock
  {
    k := LastMove(worlds, labels, n, c);
    assert StepAt(worlds, labels, k);
    assert labels[k].act.OfRefresh? && labels[k].act.refresh.ReadBundle?;
    ReadDecides(worlds, labels, k, c, labels[k].act.refresh.setup, labels[k].act.refresh.bundleFailure);
  }

  /** Step `j` of this refresh was granted that response, with the credential read at step `k` in hand. */
  ghost predicate GrantedAt(worlds: seq<World>, labels: seq<Label>, k: nat, j: nat, c: CallId, call: Call,
                            prior: Bundle, r: TokenResponse) {
    && k < j < |labels| < |worlds| && ReadAt(worlds, labels, k, c, call, prior)
    && labels[j] == Label(c, OfRefresh(Exchange(Granted(r))))
    && c in worlds[j].calls && worlds[j].calls[c] == call.(phase := HasBundle(prior, worlds[k].clock))
  }

  /** The job dates a response by the clock before it asks, the service by the clock after. */
  function DatedAt(worlds: seq<World>, k: nat, j: nat, call: Call): int
    requires k < |worlds| && j < |worlds| && call.Refreshing?
  {
    if call.sweep.kind == Job then worlds[k].clock else worlds[j].clock
  }

  /** Whatever successor a refresh holds was granted to it in exchange for the credential it had read: token and
      lifetime are the response's, refresh token and scope too unless the response leaves them out. */
  lemma SuccessorFrom(worlds: seq<World>, labels: seq<Label>, n: nat, c: CallId)
    returns (k: nat, j: nat, prior: Bundle, r: TokenResponse)
    requires IsRun(worlds, labels) && n <= |labels| && c in worlds[n].calls
    requires worlds[n].calls[c].Refreshing? && worlds[n].calls[c].phase.Successor?
    ensures
      var call := worlds[n].calls[c];
      && j < n && GrantedAt(worlds, labels, k, j, c, call, prior, r)
      && call.phase.reading == DatedAt(worlds, k, j, call)
      && Succeeds(prior, call.phase.reading, r, call.phase.successor)
  {
    j := LastMove(worlds, labels, n, c);
    assert StepAt(worlds, labels, j);
    assert labels[j].act.OfRefresh? && labels[j].act.refresh.Exchange?;
    ExchangeDecides(worlds, labels, j, c, labels[j].act.refresh.answer);
    prior, r := worlds[j].calls[c].phase.bundle, labels[j].act.refresh.answer.response;
    k := BundleFrom(worlds, labels, j, c);
  }

  /** And what it has stored is that successor, which took the place of a live credential of its scope. */
  lemma StoredFrom(worlds: seq<World>, labels: seq<Label>, n: nat, c: CallId)
    returns (k: nat, j: nat, m: nat, prior: Bundle, r: TokenResponse)
    requires IsRun(worlds, labels) && n <= |labels| && c in worlds[n].calls
    requires worlds[n].calls[c].Refreshing? && worlds[n].calls[c].phase.Stored?
    ensures
      var call := worlds[n].calls[c];
      && j < m < n && GrantedAt(worlds, labels, k, j, c, call, prior, r)
      && call.phase.reading == DatedAt(worlds, k, j, call)
      && Succeeds(prior, call.phase.reading, r, call.phase.successor)
      && labels[m].caller == c && labels[m].act.OfRefresh? && labels[m].act.refresh.Rotate?
      && var s := ScopeIn(worlds[m], call);
         && s in worlds[m].store && worlds[m].store[s].Live?
         && worlds[m + 1].store == worlds[m].store[s := Live(call.phase.successor)]
  {
    m := LastMove(worlds, labels, n, c);
    assert StepAt(worlds, labels, m);
    assert labels[m].act.OfRefresh? && labels[m].act.refresh.Rotate?;
    RotateDecides(worlds, labels, m, c, labels[m].act.refresh.rotateFailure);
    k, j, prior, r := SuccessorFrom(worlds, labels, m, c);
  }
}
