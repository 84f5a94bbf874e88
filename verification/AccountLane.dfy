/** OAuth accounts as a step relation: any number of overlapping authorizations, completions,
    disconnects, on-use refreshes, service sweeps and job sweeps over one account table, its row locks,
    and one credential store.

    A row claimed `FOR UPDATE SKIP LOCKED` stays locked until its refresh commits, rolls back or dies;
    an UPDATE or DELETE of another call waits for that. Store verbs and provider calls are steps of
    their own, so everything else may happen between them. */
module AccountLane {
  import opened Outcomes
  import opened CredentialStore
  import opened AccountRows
  import opened IdentityChecks

  type CallId = nat

  /** What a completion is held to from its start: the nonce of its signed state, and the configuration. */
  datatype Binding = Binding(nonce: string, clientId: string, pkceS256: bool, defaultScopes: string, bypass: bool)

  /** What the provider says about who consented. */
  datatype Evidence = Evidence(identity: IdentityClaims, token: Option<IdToken>)

  predicate Passes(e: Evidence, b: Binding, accountRef: string) {
    AudienceAndNonceHold(e.identity, e.token, b.clientId, b.nonce) && EmailHolds(e.identity, accountRef, b.bypass)
  }

  datatype CompleteStage =
    | StateVerified
    | AccountRead(accountRef: string)
    | VerifierRead(accountRef: string, verifier: Option<string>)
    | Exchanged(accountRef: string, response: TokenResponse, expiresAt: int, now: int)
    | Identified(accountRef: string, response: TokenResponse, expiresAt: int, now: int, evidence: Evidence)
    | Carried(accountRef: string, scopes: string, bundle: Bundle, now: int, evidence: Evidence)
    | MustRotate(accountRef: string, scopes: string, bundle: Bundle, now: int, evidence: Evidence)
    | InStore(accountRef: string, scopes: string, bundle: Bundle, now: int, evidence: Evidence)

  datatype DisconnectStage = Looking | Found(provider: string, accountRef: string) | Withdrawn

  /** A sweep between two claims. `attempted` is the job's exclusion list; the service has none, there it
      is history. */
  datatype Sweep = Sweep(kind: Kind, window: int, left: nat, attempted: seq<AccountId>, report: Report)

  /** `Completed` and `DisconnectDone` are Ok answers, `LeftAlone` an on-use call with nothing to refresh. */
  datatype Call =
    | Completing(accountId: AccountId, provider: string, binding: Binding, stage: CompleteStage)
    | Completed(accountId: AccountId, provider: string, binding: Binding, accountRef: string, expiresAt: int, now: int,
                evidence: Evidence)
    | Disconnecting(accountId: AccountId, withdrawal: DisconnectStage)
    | DisconnectDone(accountId: AccountId)
    | OnUse(accountId: AccountId, window: int, due: bool)
    | LeftAlone(accountId: AccountId, window: int)
    | Sweeping(sweep: Sweep)
    | Refreshing(sweep: Sweep, id: AccountId, provider: string, accountRef: string, began: int, phase: Phase)
    | SweepDone(sweep: Sweep)
    | Ended

  /** `issued` is history: every account id ever inserted. */
  datatype World = World(
    company: nat,
    accounts: map<AccountId, Account>,
    locks: map<AccountId, CallId>,
    store: map<Scope, Entry>,
    clock: int,
    calls: map<CallId, Call>,
    issued: set<AccountId>)

  datatype CompleteAct =
    | ReadAccount
    | ReadVerifier
    | ExchangeCode(granted: Option<TokenResponse>)
    | CheckIdentity(evidence: Evidence)
    | CarryRefresh(readFailure: Option<StoreFailure>)
    | IssueCredential(issueFailure: Option<StoreFailure>)
    | RotateInstead(insteadFailure: Option<StoreFailure>)
    | Activate

  datatype DisconnectAct = FindAccount | Withdraw(revokeFailure: Option<StoreFailure>) | MarkRevoked

  datatype OnUseAct = CheckDue | ClaimOnUse

  datatype SweepAct = Claim(id: AccountId) | NothingToClaim | BatchDone

  datatype RefreshAct =
    | ReadBundle(setup: Setup, bundleFailure: Option<StoreFailure>)
    | Exchange(answer: ExchangeAnswer)
    | Rotate(rotateFailure: Option<StoreFailure>)
    | Settle

  /** The clock and an authorization are steps of no call. An authorization is one transaction; `unseen`
      are rows its DELETE missed because another authorization committed them in between. */
  datatype Act =
    | Tick(now: int)
    | Authorize(newId: AccountId, row: Account, unseen: set<AccountId>)
    | Begin(first: Call)
    | OfComplete(complete: CompleteAct)
    | OfDisconnect(disconnect: DisconnectAct)
    | OfUse(use: OnUseAct)
    | OfSweep(sweep: SweepAct)
    | OfRefresh(refresh: RefreshAct)
    | Fail

  datatype Label = Label(caller: CallId, act: Act)

  // ---------------------------------------------------------------- views

  function EntryAt(store: map<Scope, Entry>, s: Scope): Entry {
    if s in store then store[s] else Never
  }

  function Put(store: map<Scope, Entry>, s: Scope, e: Entry): map<Scope, Entry> {
    if e == EntryAt(store, s) then store else store[s := e]
  }

  function ScopeOf(w: World, provider: string, accountRef: string): Scope {
    Scope(w.company, provider, accountRef)
  }

  function FirstOf(injected: Option<StoreFailure>, own: Option<StoreFailure>): Option<StoreFailure> {
    if injected.Some? then injected else own
  }

  function ReadOf(entry: Entry, now: int, injected: Option<StoreFailure>): Result<Bundle, StoreFailure> {
    if injected.Some? then Err(injected.value) else ReadAnswer(entry, now)
  }

  predicate SameAccount(a: Account, provider: string, accountRef: string) {
    a.provider == provider && a.accountRef == accountRef
  }

  predicate Unlocked(w: World, id: AccountId) {
    id !in w.locks
  }

  /** What a sweep's claim query sees: due, not locked by anyone, and for the job not attempted before. */
  predicate Claimable(w: World, s: Sweep, id: AccountId) {
    && id in w.accounts && id !in w.locks
    && Due(w.accounts[id], w.clock, s.window)
    && (s.kind == Job ==> id !in s.attempted)
  }

  predicate Oldest(w: World, s: Sweep, id: AccountId) {
    && Claimable(w, s, id)
    && forall j | j in w.accounts && Claimable(w, s, j) ::
      w.accounts[id].expiresAt.value <= w.accounts[j].expiresAt.value
  }

  predicate Unfinished(call: Call) {
    !call.Completed? && !call.DisconnectDone? && !call.LeftAlone? && !call.SweepDone? && !call.Ended?
  }

  // ---------------------------------------------------------------- what is enabled

  /** A call at its entry. */
  predicate AtEntry(call: Call) {
    match call
    case Completing(_, _, _, stage) => stage == StateVerified
    case Disconnecting(_, withdrawal) => withdrawal == Looking
    case OnUse(_, _, due) => !due
    case Sweeping(s) => s.attempted == [] && s.report == NONE_YET
    case _ => false
  }

  predicate CompleteReady(w: World, call: Call, a: CompleteAct) {
    call.Completing? &&
    match a
    case ReadAccount => call.stage.StateVerified?
    case ReadVerifier => call.stage.AccountRead?
    case ExchangeCode(_) => call.stage.VerifierRead?
    case CheckIdentity(_) => call.stage.Exchanged?
    case CarryRefresh(_) => call.stage.Identified?
    case IssueCredential(_) => call.stage.Carried?
    case RotateInstead(_) => call.stage.MustRotate?
    case Activate => call.stage.InStore? && Unlocked(w, call.accountId)
  }

  predicate DisconnectReady(w: World, call: Call, a: DisconnectAct) {
    call.Disconnecting? &&
    match a
    case FindAccount => call.withdrawal.Looking?
    case Withdraw(_) => call.withdrawal.Found?
    case MarkRevoked => call.withdrawal.Withdrawn? && Unlocked(w, call.accountId)
  }

  predicate SweepReady(w: World, call: Call, a: SweepAct) {
    call.Sweeping? &&
    match a
    case Claim(id) => call.sweep.left > 0 && Oldest(w, call.sweep, id)
    case NothingToClaim => call.sweep.left > 0 && forall j | j in w.accounts :: !Claimable(w, call.sweep, j)
    case BatchDone => call.sweep.left == 0
  }

  predicate RefreshReady(call: Call, a: RefreshAct) {
    call.Refreshing? &&
    match a
    case ReadBundle(_, _) => call.phase.Held?
    case Exchange(_) => call.phase.HasBundle?
    case Rotate(_) => call.phase.Successor?
    case Settle => Terminal(call.phase)
  }

  /** The rows an authorization deletes: all of its provider and account that it sees. */
  predicate Displaced(accounts: map<AccountId, Account>, row: Account, unseen: set<AccountId>, id: AccountId)
    requires id in accounts
  {
    SameAccount(accounts[id], row.provider, row.accountRef) && id !in unseen
  }

  /** Its DELETE waits until nobody holds one of them. */
  predicate AuthorizeReady(w: World, newId: AccountId, row: Account, unseen: set<AccountId>) {
    && newId !in w.issued
    && row == NewPending(row.provider, row.accountRef, row.scopes, row.verifier)
    && forall j | j in w.accounts && Displaced(w.accounts, row, unseen, j) :: Unlocked(w, j)
  }

  predicate Enabled(w: World, l: Label) {
    match l.act
    case Tick(now) => w.clock <= now
    case Authorize(newId, row, unseen) => AuthorizeReady(w, newId, row, unseen)
    case Begin(first) => l.caller !in w.calls && AtEntry(first)
    case OfComplete(a) => l.caller in w.calls && CompleteReady(w, w.calls[l.caller], a)
    case OfDisconnect(a) => l.caller in w.calls && DisconnectReady(w, w.calls[l.caller], a)
    case OfUse(a) => l.caller in w.calls && w.calls[l.caller].OnUse? && w.calls[l.caller].due == a.ClaimOnUse?
    case OfSweep(a) => l.caller in w.calls && SweepReady(w, w.calls[l.caller], a)
    case OfRefresh(a) => l.caller in w.calls && RefreshReady(w.calls[l.caller], a)
    case Fail => l.caller in w.calls && Unfinished(w.calls[l.caller])
  }

  // ---------------------------------------------------------------- where a step leaves its call

  function CompleteNext(w: World, call: Call, a: CompleteAct): Call
    requires call.Completing?
  {
    var (id, provider, b) := (call.accountId, call.provider, call.binding);
    match (a, call.stage)
    case (ReadAccount, StateVerified) =>
      if id in w.accounts && w.accounts[id].provider == provider && w.accounts[id].status == Pending
      then call.(stage := AccountRead(w.accounts[id].accountRef)) else Ended
    case (ReadVerifier, AccountRead(accountRef)) =>
      if !b.pkceS256 then call.(stage := VerifierRead(accountRef, None))
      else if id in w.accounts && w.accounts[id].verifier.Some? && w.accounts[id].verifier.value != ""
      then call.(stage := VerifierRead(accountRef, w.accounts[id].verifier)) else Ended
    case (ExchangeCode(granted), VerifierRead(accountRef, _)) =>
      if granted.Some? && ExpiresAt(granted.value, w.clock).Some?
      then call.(stage := Exchanged(accountRef, granted.value, ExpiresAt(granted.value, w.clock).value, w.clock))
      else Ended
    case (CheckIdentity(evidence), Exchanged(accountRef, r, expiresAt, now)) =>
      if Passes(evidence, b, accountRef)
      then call.(stage := Identified(accountRef, r, expiresAt, now, evidence))
      else Ended
    case (CarryRefresh(readFailure), Identified(accountRef, r, expiresAt, now, evidence)) =>
      var prior := ReadOf(EntryAt(w.store, ScopeOf(w, provider, accountRef)), w.clock, readFailure);
      var carried := if prior.Ok? then prior.value.refreshToken else None;
      var refresh := if r.refreshToken.Some? then r.refreshToken else carried;
      var granted := if r.scope.Some? then r.scope else Some(b.defaultScopes);
      var scopes := if r.scope.Some? then r.scope.value else "";
      call.(stage := Carried(accountRef, scopes, Bundle(r.accessToken, refresh, expiresAt, granted), now, evidence))
    case (IssueCredential(injected), Carried(accountRef, scopes, bundle, now, evidence)) =>
      (match FirstOf(injected, IssueAnswer(EntryAt(w.store, ScopeOf(w, provider, accountRef))))
       case None => call.(stage := InStore(accountRef, scopes, bundle, now, evidence))
       case Some(f) =>
         if f == DuplicateActive then call.(stage := MustRotate(accountRef, scopes, bundle, now, evidence)) else Ended)
    case (RotateInstead(injected), MustRotate(accountRef, scopes, bundle, now, evidence)) =>
      if FirstOf(injected, RotateAnswer(EntryAt(w.store, ScopeOf(w, provider, accountRef)))).None?
      then call.(stage := InStore(accountRef, scopes, bundle, now, evidence)) else Ended
    case (Activate, InStore(accountRef, _, bundle, now, evidence)) =>
      if id in w.accounts && w.accounts[id].status == Pending
      then Completed(id, provider, b, accountRef, bundle.expiresAt, now, evidence) else Ended
    case _ => Ended
  }

  function DisconnectNext(w: World, id: AccountId, stage: DisconnectStage, a: DisconnectAct): Call {
    match (a, stage)
    case (FindAccount, Looking) =>
      if id !in w.accounts then Ended
      else if w.accounts[id].status == AccountStatus.Revoked then DisconnectDone(id)
      else Disconnecting(id, Found(w.accounts[id].provider, w.accounts[id].accountRef))
    case (Withdraw(injected), Found(provider, accountRef)) =>
      var failure := FirstOf(injected, RevokeAnswer(EntryAt(w.store, ScopeOf(w, provider, accountRef))));
      if failure.None? || failure == Some(NotFound) then Disconnecting(id, Withdrawn) else Ended
    case (MarkRevoked, Withdrawn) => DisconnectDone(id)
    case _ => Ended
  }

  function Claimed(w: World, s: Sweep, id: AccountId): Call
    requires id in w.accounts && s.left > 0
  {
    Refreshing(s.(left := s.left - 1, attempted := s.attempted + [id]), id,
               w.accounts[id].provider, w.accounts[id].accountRef, w.clock, Held)
  }

  function OnUseNext(w: World, id: AccountId, window: int, a: OnUseAct): Call {
    match a
    case CheckDue =>
      if id !in w.accounts then Ended
      else if Due(w.accounts[id], w.clock, window) then OnUse(id, window, true)
      else LeftAlone(id, window)
    case ClaimOnUse =>
      if id in w.accounts && w.accounts[id].status == Active && id !in w.locks
      then Claimed(w, Sweep(Service, window, 1, [], NONE_YET), id) else LeftAlone(id, window)
  }

  /** The job alone looks at how many rows its mirror write touched. */
  function PhaseSettled(w: World, call: Call): Phase
    requires call.Refreshing?
  {
    if call.phase.Stored? && call.sweep.kind == Job && call.id !in w.accounts then LeftDue else call.phase
  }

  function RefreshNext(w: World, call: Call, a: RefreshAct): Call
    requires RefreshReady(call, a)
  {
    var entry := EntryAt(w.store, ScopeOf(w, call.provider, call.accountRef));
    match a
    case ReadBundle(setup, injected) =>
      call.(phase := PhaseAfterRead(call.sweep.kind, Configured(call.sweep.kind, setup), call.sweep.window, w.clock,
                                    ReadOf(entry, w.clock, injected)))
    case Exchange(answer) =>
      call.(phase := PhaseAfterExchange(call.sweep.kind, call.phase.bundle, call.phase.sentAt, w.clock, answer))
    case Rotate(injected) =>
      (match PhaseAfterRotate(call.sweep.kind, call.phase.successor, call.phase.reading,
                              FirstOf(injected, RotateAnswer(entry)))
       case Some(p) => call.(phase := p)
       case None => Ended)
    case Settle => Sweeping(call.sweep.(report := Counted(call.sweep.report, PhaseSettled(w, call))))
  }

  predicate Callless(act: Act) {
    act.Tick? || act.Authorize?
  }

  function NextCall(w: World, l: Label): Call
    requires Enabled(w, l) && !Callless(l.act)
  {
    var c := l.caller;
    if l.act.Begin? then l.act.first
    else if l.act.OfComplete? then CompleteNext(w, w.calls[c], l.act.complete)
    else if l.act.OfDisconnect? then DisconnectNext(w, w.calls[c].accountId, w.calls[c].withdrawal, l.act.disconnect)
    else if l.act.OfUse? then OnUseNext(w, w.calls[c].accountId, w.calls[c].window, l.act.use)
    else if l.act.OfSweep? then
      if l.act.sweep.Claim? then Claimed(w, w.calls[c].sweep, l.act.sweep.id) else SweepDone(w.calls[c].sweep)
    else if l.act.OfRefresh? then RefreshNext(w, w.calls[c], l.act.refresh)
    else Ended
  }

  // ---------------------------------------------------------------- what it does to the tables

  function Replaced(accounts: map<AccountId, Account>, newId: AccountId, row: Account, unseen: set<AccountId>):
    map<AccountId, Account>
  {
    (map j | j in accounts && !Displaced(accounts, row, unseen, j) :: accounts[j])[newId := row]
  }

  /** UPDATE … WHERE id = $1 AND status = 'pending'. */
  function ActivatedIn(accounts: map<AccountId, Account>, id: AccountId, scopes: string, expiresAt: int, now: int):
    map<AccountId, Account>
  {
    if id in accounts && accounts[id].status == Pending
    then accounts[id := Activated(accounts[id], scopes, expiresAt, now)]
    else accounts
  }

  /** UPDATE … WHERE id = $1 AND status IN ('pending', 'active'). */
  function RevokedIn(accounts: map<AccountId, Account>, id: AccountId): map<AccountId, Account> {
    if id in accounts && (accounts[id].status == Pending || accounts[id].status == Active)
    then accounts[id := Disconnected(accounts[id])] else accounts
  }

  /** The refresh's own write: no status guard on the job's, nor on either mirror. */
  function SettledIn(accounts: map<AccountId, Account>, call: Call): map<AccountId, Account>
    requires call.Refreshing? && Terminal(call.phase)
  {
    if call.id in accounts
    then accounts[call.id := SettledRow(call.sweep.kind, call.phase, call.began, accounts[call.id])]
    else accounts
  }

  function NextAccounts(w: World, l: Label): map<AccountId, Account>
    requires Enabled(w, l)
  {
    var c := l.caller;
    if l.act.Authorize? then Replaced(w.accounts, l.act.newId, l.act.row, l.act.unseen)
    else if l.act == OfComplete(Activate) then
      ActivatedIn(w.accounts, w.calls[c].accountId, w.calls[c].stage.scopes, w.calls[c].stage.bundle.expiresAt,
                  w.calls[c].stage.now)
    else if l.act == OfDisconnect(MarkRevoked) then RevokedIn(w.accounts, w.calls[c].accountId)
    else if l.act == OfRefresh(Settle) then SettledIn(w.accounts, w.calls[c])
    else w.accounts
  }

  /** A claim takes the row's lock; the end of its refresh, however it ends, gives it back. */
  function LocksAfter(locks: map<AccountId, CallId>, c: CallId, before: Option<Call>, after: Call):
    map<AccountId, CallId>
  {
    var held := before.Some? && before.value.Refreshing?;
    if after.Refreshing? && !held then locks[after.id := c]
    else if held && !after.Refreshing? then locks - {before.value.id}
    else locks
  }

  function NextLocks(w: World, l: Label): map<AccountId, CallId>
    requires Enabled(w, l)
  {
    if Callless(l.act) then w.locks
    else LocksAfter(w.locks, l.caller, if l.caller in w.calls then Some(w.calls[l.caller]) else None, NextCall(w, l))
  }

  /** The scope a step writes in the store, with its new entry; nothing if the step writes none. */
  function StoreWrite(w: World, l: Label): Option<(Scope, Entry)>
    requires Enabled(w, l)
  {
    var c := l.caller;
    if l.act.OfComplete? && l.act.complete.IssueCredential? && l.act.complete.issueFailure.None? then
      var s := ScopeOf(w, w.calls[c].provider, w.calls[c].stage.accountRef);
      Some((s, Issued(EntryAt(w.store, s), w.calls[c].stage.bundle)))
    else if l.act.OfComplete? && l.act.complete.RotateInstead? && l.act.complete.insteadFailure.None? then
      var s := ScopeOf(w, w.calls[c].provider, w.calls[c].stage.accountRef);
      Some((s, Rotated(EntryAt(w.store, s), w.calls[c].stage.bundle)))
    else if l.act.OfDisconnect? && l.act.disconnect.Withdraw? && l.act.disconnect.revokeFailure.None? then
      var s := ScopeOf(w, w.calls[c].withdrawal.provider, w.calls[c].withdrawal.accountRef);
      Some((s, CredentialStore.Revoked(EntryAt(w.store, s))))
    else if l.act.OfRefresh? && l.act.refresh.Rotate? && l.act.refresh.rotateFailure.None? then
      var s := ScopeOf(w, w.calls[c].provider, w.calls[c].accountRef);
      Some((s, Rotated(EntryAt(w.store, s), w.calls[c].phase.successor)))
    else None
  }

  function NextStore(w: World, l: Label): map<Scope, Entry>
    requires Enabled(w, l)
  {
    match StoreWrite(w, l)
    case Some((s, e)) => Put(w.store, s, e)
    case None => w.store
  }

  function Apply(w: World, l: Label): World
    requires Enabled(w, l)
  {
    World(w.company, NextAccounts(w, l), NextLocks(w, l), NextStore(w, l),
          if l.act.Tick? then l.act.now else w.clock,
          if Callless(l.act) then w.calls else w.calls[l.caller := NextCall(w, l)],
          if l.act.Authorize? then w.issued + {l.act.newId} else w.issued)
  }

  predicate StepAt(worlds: seq<World>, labels: seq<Label>, i: nat)
    requires i < |labels| < |worlds|
  {
    Enabled(worlds[i], labels[i]) && worlds[i + 1] == Apply(worlds[i], labels[i])
  }

  /** Worlds linked by steps, from any world on. */
  ghost predicate IsPath(worlds: seq<World>, labels: seq<Label>) {
    |worlds| == |labels| + 1 && forall i | 0 <= i < |labels| :: StepAt(worlds, labels, i)
  }

  /** Nothing authorized yet; the store may already hold credentials. */
  predicate Initial(w: World) {
    w.accounts == map[] && w.locks == map[] && w.calls == map[] && w.issued == {}
  }

  ghost predicate IsRun(worlds: seq<World>, labels: seq<Label>) {
    IsPath(worlds, labels) && Initial(worlds[0])
  }

  lemma PathExtends(worlds: seq<World>, labels: seq<Label>, l: Label)
    requires IsPath(worlds, labels) && Enabled(worlds[|labels|], l)
    ensures IsPath(worlds + [Apply(worlds[|labels|], l)], labels + [l])
  {
    var ws, ls := worlds + [Apply(worlds[|labels|], l)], labels + [l];
    forall i | 0 <= i < |ls| ensures StepAt(ws, ls, i) {
      if i < |labels| { assert StepAt(worlds, labels, i); }
    }
  }

  /** A path that goes on from another. */
  ghost predicate Extends(worlds: seq<World>, labels: seq<Label>, ws: seq<World>, ls: seq<Label>) {
    IsPath(worlds, labels) && IsPath(ws, ls) && worlds <= ws && labels <= ls
  }

  lemma Extend(worlds: seq<World>, labels: seq<Label>, l: Label) returns (ws: seq<World>, ls: seq<Label>)
    requires IsPath(worlds, labels) && Enabled(worlds[|labels|], l)
    ensures Extends(worlds, labels, ws, ls) && ls == labels + [l] && ws[|ls|] == Apply(worlds[|labels|], l)
  {
    PathExtends(worlds, labels, l);
    ws, ls := worlds + [Apply(worlds[|labels|], l)], labels + [l];
  }
}
