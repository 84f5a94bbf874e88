/** The account table with its row locks, the credential store across the port, and the clock: what the
    OAuth service and the refresh job share, and what other callers change between two of their statements. */
module OAuthDatabase {
  import opened Outcomes
  import opened CredentialStore
  import opened AccountRows
  import opened AccountLane
  import opened AccountInvariants

  /** One turn of a sweep: ended by an error, by nothing being due, or by an attempt. */
  datatype Round = Lost | NothingDue | Attempted(id: AccountId)

  /** What the world outside a call answered: its configuration, the store's port, the provider. */
  datatype Reply =
    | ConfigReply(setup: Setup)
    | PortReply(injected: Option<StoreFailure>)
    | CodeReply(granted: Option<TokenResponse>)
    | IdentityReply(evidence: Evidence)
    | TokenReply(answer: ExchangeAnswer)

  /** The answers a step goes by. The job asks its configuration first, and the store only if there is one. */
  function Replies(w: World, l: Label): seq<Reply>
    requires Enabled(w, l)
  {
    match l.act
    case OfComplete(ExchangeCode(granted)) => [CodeReply(granted)]
    case OfComplete(CheckIdentity(evidence)) => [IdentityReply(evidence)]
    case OfComplete(CarryRefresh(injected)) =>
      if w.calls[l.caller].stage.response.refreshToken.None? then [PortReply(injected)] else []
    case OfComplete(IssueCredential(injected)) => [PortReply(injected)]
    case OfComplete(RotateInstead(injected)) => [PortReply(injected)]
    case OfDisconnect(Withdraw(injected)) => [PortReply(injected)]
    case OfRefresh(ReadBundle(setup, injected)) =>
      if w.calls[l.caller].sweep.kind == Service then [PortReply(injected)]
      else if setup.resolvesNow && setup.clientId.Some? then [ConfigReply(setup), PortReply(injected)]
      else [ConfigReply(setup)]
    case OfRefresh(Exchange(answer)) => [TokenReply(answer)]
    case OfRefresh(Rotate(injected)) => [PortReply(injected)]
    case _ => []
  }

  /** Of all the rows of this account there is left one, new and pending; other rows are as they were. */
  ghost predicate Reauthorized(before: map<AccountId, Account>, after: map<AccountId, Account>, newId: AccountId,
                               provider: string, accountRef: string, scopes: string, verifier: Option<string>) {
    && newId in after && after[newId] == Account(provider, accountRef, Pending, scopes, verifier, None, None)
    && (forall j | j != newId ::
          j in after <==> j in before && !(before[j].provider == provider && before[j].accountRef == accountRef))
    && (forall j | j in after && j != newId :: after[j] == before[j])
  }

  class Database {
    const company: nat
    var accounts: map<AccountId, Account>
    var locked: set<AccountId>
    var store: map<Scope, Entry>
    var clock: int

    // The run so far: every world passed through, and the step between each two.
    ghost var worlds: seq<World>
    ghost var labels: seq<Label>

    // Answers not yet acted upon, and the calls that database or provider left without one.
    ghost var unused: seq<Reply>
    ghost var outages: set<CallId>

    ghost predicate Valid()
      reads this
    {
      Current() && unused == []
    }

    /** The tables are those of the run's last world. */
    ghost predicate Current()
      reads this
    {
      && IsRun(worlds, labels)
      && Now().company == company && Now().accounts == accounts && Now().locks.Keys == locked
      && Now().store == store && Now().clock == clock
    }

    ghost function Now(): World
      reads this
      requires worlds != []
    {
      worlds[|worlds| - 1]
    }

    /** Call `me` stands here. */
    ghost predicate At(me: CallId, call: Call)
      reads this
      requires worlds != []
    {
      me in Now().calls && Now().calls[me] == call
    }

    /** A call that has yet to begin. */
    ghost predicate Starts(me: CallId)
      reads this
      requires worlds != []
    {
      me !in Now().calls && me !in outages
    }

    /** The last step of the run is this one. */
    ghost predicate LastWas(me: CallId, act: Act)
      reads this
    {
      labels != [] && labels[|labels| - 1] == Label(me, act)
    }

    constructor (company: nat, store: map<Scope, Entry>, clock: int)
      ensures Valid() && accounts == map[] && locked == {} && this.store == store && this.clock == clock
      ensures Now().calls == map[] && this.company == company
    {
      this.company := company;
      accounts, locked, this.store, this.clock := map[], {}, store, clock;
      worlds := [World(company, map[], map[], store, clock, map[], {})];
      labels := [];
      unused, outages := [], {};
    }

    /** A scheduling point: other calls may take any number of steps, and time may pass. The caller may
        rely on this contract only; that nobody happens to run is one way to meet it. */
    method Others(ghost me: CallId)
      requires Valid() && me in Now().calls
      modifies this
      ensures Valid() && me in Now().calls && Now().calls[me] == old(Now().calls[me])
      ensures old(worlds) <= worlds && old(labels) <= labels
      ensures forall i | |old(labels)| <= i < |labels| :: labels[i].caller != me
      ensures me in outages <==> me in old(outages)
    {
    }

    /** Whether the database answers this time. */
    method Reachable(ghost me: CallId) returns (up: bool)
      modifies this`outages
      ensures outages == if up then old(outages) else old(outages) + {me}
    {
      up := *;
      outages := if up then outages else outages + {me};
    }

    /** What the configuration has for a provider. */
    method Configuration(provider: string) returns (setup: Setup)
      modifies this`unused
      ensures unused == old(unused) + [ConfigReply(setup)]
    {
      setup := *;
      unused := unused + [ConfigReply(setup)];
    }

    predicate ReadsFor(l: Label, me: CallId, clientId: string) {
      && l.caller == me && l.act.OfRefresh? && l.act.refresh.ReadBundle?
      && l.act.refresh.setup.clientId == Some(clientId)
    }

    /** The last step of the call read a credential, with this client id in its configuration. */
    ghost predicate ReadFor(me: CallId, clientId: string)
      reads this
    {
      exists k :: 0 <= k < |labels| && ReadsFor(labels[k], me, clientId) && NotBy(me, k + 1)
    }

    /** None of the steps from `k` on is one of call `me`. */
    ghost predicate NotBy(me: CallId, k: nat)
      reads this
    {
      forall i | k <= i < |labels| :: labels[i].caller != me
    }

    /** Call `me` refreshes an account of this provider, with the form's refresh token and client id in hand. */
    ghost predicate Presents(me: CallId, provider: string, form: TokenRequestForm)
      reads this
      requires worlds != []
    {
      && me in Now().calls && Now().calls[me].Refreshing? && Now().calls[me].phase.HasBundle?
      && Now().calls[me].provider == provider
      && form.grantType == "refresh_token" && form.refreshToken == Now().calls[me].phase.bundle.refreshToken
      && form.code.None? && form.codeVerifier.None? && ReadFor(me, form.clientId)
    }

    /** The provider's token endpoint, asked with the refresh token the call has just read: any answer. */
    method Exchange(provider: string, form: TokenRequestForm, ghost me: CallId) returns (answer: ExchangeAnswer)
      requires Valid() && Presents(me, provider, form)
      modifies this`unused
      ensures unused == [TokenReply(answer)]
    {
      answer := *;
      unused := [TokenReply(answer)];
    }

    /** A step goes by what was answered since the last one, and by nothing else. */
    ghost method Step(me: CallId, act: Act)
      requires IsRun(worlds, labels) && Enabled(Now(), Label(me, act)) && unused == Replies(Now(), Label(me, act))
      modifies this`worlds, this`labels, this`unused
      ensures IsRun(worlds, labels) && Now() == Apply(old(Now()), Label(me, act))
      ensures worlds == old(worlds) + [Now()] && labels == old(labels) + [Label(me, act)] && unused == []
    {
      var next := Apply(Now(), Label(me, act));
      PathExtends(worlds, labels, Label(me, act));
      worlds, labels := worlds + [next], labels + [Label(me, act)];
      unused := [];
    }

    ghost method Enter(me: CallId, call: Call)
      requires Valid() && me !in Now().calls && AtEntry(call) && !call.Refreshing?
      modifies this`worlds, this`labels, this`unused
      ensures Valid() && At(me, call) && labels == old(labels) + [Label(me, Begin(call))]
    {
      Step(me, Begin(call));
    }

    /** The end of a call that holds no lock, by an error. */
    ghost method GiveUp(me: CallId)
      requires Valid() && me in Now().calls && Unfinished(Now().calls[me]) && !Now().calls[me].Refreshing?
      modifies this`worlds, this`labels, this`unused
      ensures Valid() && At(me, Ended) && old(labels) <= labels
    {
      Step(me, Fail);
    }

    /** A step of a completion that writes no table. */
    ghost method Check(me: CallId, a: CompleteAct, call: Call)
      requires Current() && At(me, call) && CompleteReady(Now(), call, a)
      requires !a.Activate? && !a.IssueCredential? && !a.RotateInstead?
      requires unused == Replies(Now(), Label(me, OfComplete(a)))
      modifies this`worlds, this`labels, this`unused
      ensures Valid() && At(me, CompleteNext(old(Now()), call, a)) && LastWas(me, OfComplete(a))
    {
      Step(me, OfComplete(a));
    }

    /** The end of a sweep that has spent its batch. */
    ghost method FinishBatch(me: CallId, s: Sweep)
      requires Valid() && At(me, Sweeping(s)) && s.left == 0
      modifies this`worlds, this`labels, this`unused
      ensures Valid() && At(me, SweepDone(s)) && old(labels) <= labels
    {
      Step(me, OfSweep(BatchDone));
    }

    // ---------------------------------------------------------------- statements

    /** SELECT … WHERE due AND id <> ALL(excluded) ORDER BY expires_at LIMIT 1 FOR UPDATE SKIP LOCKED. */
    method OldestDue(window: int, excluded: seq<AccountId>) returns (best: Option<AccountId>)
      ensures best.Some? ==>
        && best.value in accounts && Takes(best.value, window, excluded)
        && forall j | j in accounts && Takes(j, window, excluded) ::
          accounts[best.value].expiresAt.value <= accounts[j].expiresAt.value
      ensures best.None? ==> forall j | j in accounts :: !Takes(j, window, excluded)
    {
      best := None;
      var left := accounts.Keys;
      while left != {}
        invariant left <= accounts.Keys
        invariant best.Some? ==>
          && best.value in accounts && Takes(best.value, window, excluded)
          && forall j | j in accounts && j !in left && Takes(j, window, excluded) ::
               accounts[best.value].expiresAt.value <= accounts[j].expiresAt.value
        invariant best.None? ==> forall j | j in accounts && j !in left :: !Takes(j, window, excluded)
        decreases left
      {
        var id :| id in left;
        left := left - {id};
        if Takes(id, window, excluded)
           && (best.None? || accounts[id].expiresAt.value < accounts[best.value].expiresAt.value) {
          best := Some(id);
        }
      }
    }

    predicate Takes(id: AccountId, window: int, excluded: seq<AccountId>)
      reads this
      requires id in accounts
    {
      && accounts[id].status == Active && accounts[id].expiresAt.Some? && accounts[id].expiresAt.value < clock + window
      && id !in locked && id !in excluded
    }

    /** The claim transaction of a sweep: take the oldest due row that is free, or find the sweep done. */
    method ClaimOldest(window: int, excluded: seq<AccountId>, ghost s: Sweep, ghost me: CallId)
      returns (claimed: Option<AccountId>)
      requires Valid() && At(me, Sweeping(s)) && s.left > 0 && s.window == window
      requires excluded == if s.kind == Job then s.attempted else []
      modifies this
      ensures Valid() && accounts == old(accounts) && store == old(store) && clock == old(clock)
      ensures old(labels) <= labels && outages == old(outages)
      ensures claimed.Some? ==> claimed.value in accounts && At(me, Claimed(old(Now()), s, claimed.value))
      ensures claimed.None? ==> At(me, SweepDone(s)) && locked == old(locked)
    {
      claimed := OldestDue(window, excluded);
      assert forall j | j in accounts :: Takes(j, window, excluded) <==> Claimable(Now(), s, j);
      if claimed.Some? {
        locked := locked + {claimed.value};
        Step(me, OfSweep(Claim(claimed.value)));
      } else {
        Step(me, OfSweep(NothingToClaim));
      }
    }

    /** SELECT … WHERE id = $1 AND status = 'active' FOR UPDATE SKIP LOCKED. */
    method ClaimOne(id: AccountId, window: int, ghost me: CallId) returns (claimed: bool)
      requires Valid() && At(me, OnUse(id, window, true))
      modifies this
      ensures Valid() && accounts == old(accounts) && store == old(store) && clock == old(clock)
      ensures old(labels) <= labels && outages == old(outages)
      ensures claimed ==> id in accounts && At(me, Claimed(old(Now()), Sweep(Service, window, 1, [], NONE_YET), id))
      ensures !claimed ==> At(me, LeftAlone(id, window))
    {
      claimed := id in accounts && accounts[id].status == Active && id !in locked;
      if claimed { locked := locked + {id}; }
      Step(me, OfUse(ClaimOnUse));
    }

    /** Somebody holds a row of this account. */
    ghost predicate Contended(provider: string, accountRef: string)
      reads this
    {
      exists j :: j in locked && j in accounts && SameAccount(accounts[j], provider, accountRef)
    }

    /** Whether no one holds a row of this account: a DELETE waits for that, or gives up. */
    method NobodyHolds(provider: string, accountRef: string) returns (free: bool)
      ensures free <==> !Contended(provider, accountRef)
    {
      free := forall j | j in accounts && SameAccount(accounts[j], provider, accountRef) :: j !in locked;
    }

    /** DELETE … WHERE provider = $1 AND account_ref = $2; INSERT …; COMMIT. */
    method ReplaceAccount(newId: AccountId, row: Account, ghost me: CallId)
      requires Valid() && newId !in Now().issued
      requires row == NewPending(row.provider, row.accountRef, row.scopes, row.verifier)
      requires !Contended(row.provider, row.accountRef)
      modifies this
      ensures Valid() && store == old(store) && locked == old(locked) && clock == old(clock) && outages == old(outages)
      ensures Reauthorized(old(accounts), accounts, newId, row.provider, row.accountRef, row.scopes, row.verifier)
    {
      assert AuthorizeReady(Now(), newId, row, {});
      var kept := map j | j in accounts && !SameAccount(accounts[j], row.provider, row.accountRef) :: accounts[j];
      assert kept[newId := row] == Replaced(accounts, newId, row, {});
      accounts := kept[newId := row];
      Step(me, Authorize(newId, row, {}));
    }

    /** COMMIT of a refresh whose write is done, or ROLLBACK of one that wrote nothing: the lock goes, the
        outcome is counted. */
    method EndRefresh(id: AccountId, ghost call: Call, ghost me: CallId)
      requires IsRun(worlds, labels) && At(me, call) && call.Refreshing? && call.id == id && Terminal(call.phase)
      requires Now().company == company && Now().locks.Keys == locked && Now().store == store && Now().clock == clock
      requires unused == []
      requires accounts == SettledIn(Now().accounts, call)
      modifies this`locked, this`worlds, this`labels, this`unused
      ensures Valid() && old(labels) <= labels
      ensures At(me, Sweeping(call.sweep.(report := Counted(call.sweep.report, PhaseSettled(old(Now()), call)))))
    {
      locked := locked - {id};
      Step(me, OfRefresh(Settle));
    }

    /** The connection to the database is gone: nothing commits, and the lock goes with it. */
    method LoseRefresh(id: AccountId, ghost call: Call, ghost me: CallId)
      requires Valid() && At(me, call) && call.Refreshing? && call.id == id
      modifies this`locked, this`worlds, this`labels, this`unused
      ensures Valid() && At(me, Ended) && old(labels) <= labels
    {
      locked := locked - {id};
      Step(me, Fail);
    }

    method Activate(id: AccountId, scopes: string, expiresAt: int, now: int) returns (affected: nat)
      modifies this`accounts
      ensures accounts == ActivatedIn(old(accounts), id, scopes, expiresAt, now)
      ensures affected == if id in old(accounts) && old(accounts)[id].status == Pending then 1 else 0
    {
      affected := 0;
      if id in accounts && accounts[id].status == Pending {
        accounts := accounts[id := accounts[id].(status := Active, scopes := scopes, expiresAt := Some(expiresAt),
                                                 refreshedAt := Some(now), verifier := None)];
        affected := 1;
      }
    }

    method MarkRevoked(id: AccountId)
      modifies this`accounts
      ensures accounts == RevokedIn(old(accounts), id)
    {
      if id in accounts && (accounts[id].status == Pending || accounts[id].status == Active) {
        accounts := accounts[id := accounts[id].(status := AccountStatus.Revoked, verifier := None)];
      }
    }

    // ---------------------------------------------------------------- the store across the port

    /** Whether the port fails this time, before it does anything. */
    method PortFailure() returns (failure: Option<StoreFailure>)
      modifies this`unused
      ensures unused == old(unused) + [PortReply(failure)]
    {
      failure := *;
      unused := unused + [PortReply(failure)];
    }

    function StoreEntry(s: Scope): Entry
      reads this
    {
      EntryAt(store, s)
    }

    method ReadToken(s: Scope) returns (r: Result<Bundle, StoreFailure>, injected: Option<StoreFailure>)
      modifies this`unused
      ensures r == ReadOf(StoreEntry(s), clock, injected)
      ensures unused == old(unused) + [PortReply(injected)]
    {
      injected := PortFailure();
      if injected.Some? {
        return Err(injected.value), injected;
      }
      r := ReadAnswer(StoreEntry(s), clock);
    }

    method IssueToken(s: Scope, b: Bundle) returns (failure: Option<StoreFailure>, injected: Option<StoreFailure>)
      modifies this`store, this`unused
      ensures failure == FirstOf(injected, IssueAnswer(old(StoreEntry(s))))
      ensures unused == old(unused) + [PortReply(injected)]
      ensures store == if injected.Some? then old(store) else Put(old(store), s, Issued(old(StoreEntry(s)), b))
    {
      injected := PortFailure();
      if injected.Some? {
        return injected, injected;
      }
      failure := IssueAnswer(StoreEntry(s));
      store := Put(store, s, Issued(StoreEntry(s), b));
    }

    method RotateToken(s: Scope, b: Bundle) returns (failure: Option<StoreFailure>, injected: Option<StoreFailure>)
      modifies this`store, this`unused
      ensures failure == FirstOf(injected, RotateAnswer(old(StoreEntry(s))))
      ensures unused == old(unused) + [PortReply(injected)]
      ensures store == if injected.Some? then old(store) else Put(old(store), s, Rotated(old(StoreEntry(s)), b))
    {
      injected := PortFailure();
      if injected.Some? {
        return injected, injected;
      }
      failure := RotateAnswer(StoreEntry(s));
      store := Put(store, s, Rotated(StoreEntry(s), b));
    }

    method RevokeToken(s: Scope) returns (failure: Option<StoreFailure>, injected: Option<StoreFailure>)
      modifies this`store, this`unused
      ensures failure == FirstOf(injected, RevokeAnswer(old(StoreEntry(s))))
      ensures unused == old(unused) + [PortReply(injected)]
      ensures store ==
        if injected.Some? then old(store) else Put(old(store), s, CredentialStore.Revoked(old(StoreEntry(s))))
    {
      injected := PortFailure();
      if injected.Some? {
        return injected, injected;
      }
      failure := RevokeAnswer(StoreEntry(s));
      store := Put(store, s, CredentialStore.Revoked(StoreEntry(s)));
    }

    // ---------------------------------------------------------------- a claimed account's refresh

    /** The credential of the held account, read from the store. */
    method ReadHeld(provider: string, accountRef: string, ghost setup: Setup, ghost call: Call, ghost me: CallId)
      returns (read: Result<Bundle, StoreFailure>)
      requires Current() && At(me, call) && call.Refreshing? && call.phase == Held
      requires call.provider == provider && call.accountRef == accountRef
      requires call.sweep.kind == Service ==> unused == []
      requires call.sweep.kind == Job ==> unused == [ConfigReply(setup)] && Configured(Job, setup)
      modifies this`worlds, this`labels, this`unused
      ensures Valid() && |labels| == |old(labels)| + 1 && old(labels) <= labels
      ensures setup.clientId.Some? ==> ReadFor(me, setup.clientId.value)
      ensures exists f :: LastWas(me, OfRefresh(ReadBundle(setup, f)))
      ensures At(me, call.(phase := PhaseAfterRead(call.sweep.kind, Configured(call.sweep.kind, setup),
                                                   call.sweep.window, clock, read)))
    {
      ghost var injected;
      read, injected := ReadToken(Scope(company, provider, accountRef));
      Step(me, OfRefresh(ReadBundle(setup, injected)));
      if setup.clientId.Some? { assert ReadsFor(labels[|labels| - 1], me, setup.clientId.value); }
    }

    /** The provider asked for a successor. */
    method ExchangeHeld(provider: string, form: TokenRequestForm, ghost call: Call, ghost me: CallId)
      returns (answer: ExchangeAnswer)
      requires Valid() && At(me, call) && call.Refreshing? && call.phase.HasBundle? && Presents(me, provider, form)
      modifies this`worlds, this`labels, this`unused
      ensures Valid() && old(labels) <= labels
      ensures At(me, call.(phase := PhaseAfterExchange(call.sweep.kind, call.phase.bundle, call.phase.sentAt, clock,
                                                       answer)))
    {
      answer := Exchange(provider, form, me);
      Step(me, OfRefresh(AccountLane.Exchange(answer)));
    }

    /** The successor rotated into the store. A service that is refused gives up, and the lock with it. */
    method RotateHeld(kind: Kind, id: AccountId, provider: string, accountRef: string, successor: Bundle,
                      ghost call: Call, ghost me: CallId)
      returns (failure: Option<StoreFailure>)
      requires Valid() && At(me, call) && call.Refreshing? && call.phase.Successor? && call.phase.successor == successor
      requires call.sweep.kind == kind && call.id == id && call.provider == provider && call.accountRef == accountRef
      modifies this`store, this`locked, this`worlds, this`labels, this`unused
      ensures Valid() && old(labels) <= labels
      ensures
        var next := PhaseAfterRotate(call.sweep.kind, successor, call.phase.reading, failure);
        At(me, if next.Some? then call.(phase := next.value) else Ended)
      ensures exists f :: LastWas(me, OfRefresh(RefreshAct.Rotate(f)))
    {
      ghost var injected;
      failure, injected := RotateToken(Scope(company, provider, accountRef), successor);
      if failure.Some? && kind == Service { locked := locked - {id}; }
      Step(me, OfRefresh(RefreshAct.Rotate(injected)));
    }
  }
}
