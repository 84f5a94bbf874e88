/** The scheduled refresh: `refresh_oauth_credentials`, `refresh_one` and `expire_account`, one statement
    after another over rows and a store that others change in between. Each body is shown to be a path of
    the account lane, so the guarantees over runs hold of it. */
module RefreshJob {
  import opened Outcomes
  import opened Lists
  import opened CredentialStore
  import opened AccountRows
  import opened AccountLane
  import opened AccountInvariants
  import opened SweepCoverage
  import opened SweepAlone
  import opened OAuthDatabase

  /** A refresh of the job that has come to `phase`. */
  predicate RefreshOfJob(call: Call, id: AccountId, began: int, report: Report, phase: Phase) {
    && call.Refreshing? && call.sweep.kind == Job && call.sweep.report == report
    && call.id == id && call.began == began && call.phase == phase
  }

  /** After a refresh: on with the sweep, or given up with an error. */
  predicate Over(ok: bool, before: Call, after: Call, report: Report)
    requires before.Refreshing?
  {
    after == if ok then Sweeping(before.sweep.(report := report)) else Ended
  }

  /** Rollback: the row stays due. */
  method LeaveDue(db: Database, id: AccountId, began: int, report: Report, ghost call: Call, ghost me: CallId)
    returns (ok: bool, after: Report)
    requires db.Valid() && db.At(me, call) && RefreshOfJob(call, id, began, report, LeftDue)
    modifies db
    ensures db.Valid() && me in db.Now().calls && ok && Over(ok, call, db.Now().calls[me], after)
    ensures db.accounts == old(db.accounts) && after == report.(skipped := report.skipped + 1)
  {
    db.EndRefresh(id, call, me);
    return true, report.(skipped := report.skipped + 1);
  }

  method ExpireAccount(db: Database, id: AccountId, began: int, report: Report, ghost cause: Death, ghost call: Call,
                       ghost me: CallId)
    returns (ok: bool, after: Report)
    requires db.Valid() && db.At(me, call) && RefreshOfJob(call, id, began, report, Dying(cause))
    modifies db
    ensures db.Valid() && me in db.Now().calls && Over(ok, call, db.Now().calls[me], after)
    ensures !ok ==> me in db.outages
    ensures ok ==> db.accounts == SettledIn(old(db.accounts), call) && after == report.(expired := report.expired + 1)
    ensures !ok ==> db.accounts == old(db.accounts)
  {
    var up := db.Reachable(me);
    if !up {
      db.LoseRefresh(id, call, me);
      return false, report;
    }
    if id in db.accounts {
      db.accounts := db.accounts[id := db.accounts[id].(status := AccountStatus.Expired)];
    }
    db.EndRefresh(id, call, me);
    return true, report.(expired := report.expired + 1);
  }

  /** The mirror write and the commit; no row touched means rolled back. */
  method Mirror(db: Database, id: AccountId, began: int, report: Report, successor: Bundle, ghost reading: int,
                ghost call: Call, ghost me: CallId)
    returns (ok: bool, after: Report)
    requires db.Valid() && db.At(me, call) && RefreshOfJob(call, id, began, report, Stored(successor, reading))
    modifies db
    ensures db.Valid() && me in db.Now().calls && Over(ok, call, db.Now().calls[me], after)
    ensures !ok ==> me in db.outages
    ensures db.accounts == if ok then SettledIn(old(db.accounts), call) else old(db.accounts)
  {
    var up := db.Reachable(me);
    if !up {
      db.LoseRefresh(id, call, me);
      return false, report;
    }
    if id in db.accounts {
      db.accounts := db.accounts[id := db.accounts[id].(expiresAt := Some(successor.expiresAt),
                                                        refreshedAt := Some(began))];
      after := report.(refreshed := report.refreshed + 1);
    } else {
      after := report.(skipped := report.skipped + 1);
    }
    ok := true;
    db.EndRefresh(id, call, me);
  }

  /** The successor goes into the store, then into the mirror. */
  method RotateAndMirror(db: Database, id: AccountId, provider: string, accountRef: string, began: int, report: Report,
                         successor: Bundle, ghost reading: int, ghost call: Call, ghost me: CallId)
    returns (ok: bool, after: Report)
    requires db.Valid() && db.At(me, call) && RefreshOfJob(call, id, began, report, Successor(successor, reading))
    requires call.provider == provider && call.accountRef == accountRef
    modifies db
    ensures db.Valid() && me in db.Now().calls && Over(ok, call, db.Now().calls[me], after)
    ensures !ok ==> me in db.outages
  {
    db.Others(me);
    var failure := db.RotateHeld(Job, id, provider, accountRef, successor, call, me);
    if failure.None? {
      db.Others(me);
      ok, after := Mirror(db, id, began, report, successor, reading, call.(phase := Stored(successor, reading)), me);
    } else if failure.value == Transport {
      ok, after := LeaveDue(db, id, began, report, call.(phase := LeftDue), me);
    } else {
      ok, after := ExpireAccount(db, id, began, report, RotateRefused, call.(phase := Dying(RotateRefused)), me);
    }
  }

  /** Without a positive lifetime the response is left; else the successor has what it leaves out from the bundle. */
  method RotateGranted(db: Database, id: AccountId, provider: string, accountRef: string, began: int, report: Report,
                       bundle: Bundle, r: TokenResponse, now: int, ghost call: Call, ghost me: CallId)
    returns (ok: bool, after: Report)
    requires RefreshOfJob(call, id, began, report, PhaseAfterExchange(Job, bundle, now, db.clock, Granted(r)))
    requires db.Valid() && db.At(me, call) && call.provider == provider && call.accountRef == accountRef
    modifies db
    ensures db.Valid() && me in db.Now().calls && Over(ok, call, db.Now().calls[me], after)
    ensures !ok ==> me in db.outages
  {
    if r.expiresIn.None? || r.expiresIn.value <= 0 {
      ok, after := LeaveDue(db, id, began, report, call, me);
      return;
    }
    var refresh := if r.refreshToken.Some? then r.refreshToken else bundle.refreshToken;
    var scope := if r.scope.Some? then r.scope else bundle.grantedScope;
    var successor := Bundle(r.accessToken, refresh, now + r.expiresIn.value, scope);
    ok, after := RotateAndMirror(db, id, provider, accountRef, began, report, successor, now, call, me);
  }

  /** The grant at the token endpoint; `now` was read before asking. */
  method ExchangeAndRotate(db: Database, id: AccountId, provider: string, accountRef: string, began: int,
                           report: Report, bundle: Bundle, clientId: string, now: int, ghost call: Call,
                           ghost me: CallId)
    returns (ok: bool, after: Report)
    requires db.Valid() && db.At(me, call) && RefreshOfJob(call, id, began, report, HasBundle(bundle, now))
    requires call.provider == provider && call.accountRef == accountRef && db.ReadFor(me, clientId)
    modifies db
    ensures db.Valid() && me in db.Now().calls && Over(ok, call, db.Now().calls[me], after)
    ensures !ok ==> me in db.outages
  {
    db.Others(me);
    var answer := db.ExchangeHeld(provider, RefreshForm(clientId, bundle.refreshToken), call, me);
    if answer.InvalidGrant? {
      ok, after := ExpireAccount(db, id, began, report, DeadGrant, call.(phase := Dying(DeadGrant)), me);
    } else if answer.Refused? {
      ok, after := LeaveDue(db, id, began, report, call.(phase := LeftDue), me);
    } else {
      ok, after := RotateGranted(db, id, provider, accountRef, began, report, bundle, answer.response, now,
                                 db.Now().calls[me], me);
    }
  }

  /** Where a successor comes from is `RefreshOrigins.StoredFrom`, and what is committed,
      `RefreshOrigins.SettleCommits`. */
  method RefreshOne(db: Database, id: AccountId, provider: string, accountRef: string, began: int, report: Report,
                    ghost call: Call, ghost me: CallId)
    returns (ok: bool, after: Report)
    requires db.Valid() && db.At(me, call) && RefreshOfJob(call, id, began, report, Held)
    requires call.provider == provider && call.accountRef == accountRef
    modifies db
    ensures db.Valid() && me in db.Now().calls && Over(ok, call, db.Now().calls[me], after)
    ensures !ok ==> me in db.outages
  {
    db.Others(me);
    var setup := db.Configuration(provider);
    if !Configured(Job, setup) {
      db.Step(me, OfRefresh(ReadBundle(setup, None)));
      ok, after := LeaveDue(db, id, began, report, call.(phase := LeftDue), me);
      return;
    }
    var read := db.ReadHeld(provider, accountRef, setup, call, me);
    if read.Err? {
      if read.error == Transport {
        ok, after := LeaveDue(db, id, began, report, call.(phase := LeftDue), me);
      } else {
        ok, after := ExpireAccount(db, id, began, report, Unreadable, call.(phase := Dying(Unreadable)), me);
      }
    } else if read.value.refreshToken.None? {
      ok, after := ExpireAccount(db, id, began, report, NoRefreshToken, call.(phase := Dying(NoRefreshToken)), me);
    } else {
      ok, after := ExchangeAndRotate(db, id, provider, accountRef, began, report, read.value, setup.clientId.value,
                                     db.clock, call.(phase := HasBundle(read.value, db.clock)), me);
    }
  }

  /** One turn of the loop: claim the oldest due account not yet attempted, and refresh it. */
  method Attempt(db: Database, window: int, attempted: seq<AccountId>, report: Report, ghost left: nat,
                 ghost me: CallId)
    returns (round: Round, after: Report)
    requires db.Valid() && left > 0 && db.At(me, Sweeping(Sweep(Job, window, left, attempted, report)))
    modifies db
    ensures db.Valid() && me in db.Now().calls
    ensures db.Now().calls[me] ==
      match round
      case Lost => Ended
      case NothingDue => SweepDone(Sweep(Job, window, left, attempted, after))
      case Attempted(id) => Sweeping(Sweep(Job, window, left - 1, attempted + [id], after))
    ensures round.Lost? ==> me in db.outages
  {
    after := report;
    db.Others(me);
    var up := db.Reachable(me);
    if !up {
      db.GiveUp(me);
      return Lost, after;
    }
    var claimed := db.ClaimOldest(window, attempted, Sweep(Job, window, left, attempted, report), me);
    if claimed.None? {
      return NothingDue, after;
    }
    var id := claimed.value;
    var ok;
    ok, after := RefreshOne(db, id, db.accounts[id].provider, db.accounts[id].accountRef, db.clock, report,
                            db.Now().calls[me], me);
    round := if ok then Attempted(id) else Lost;
  }

  method RunBatch(db: Database, window: int, batch: nat, ghost me: CallId)
    returns (r: Result<Report, ()>, ghost left: nat, attempted: seq<AccountId>)
    requires db.Valid() && db.At(me, Sweeping(Sweep(Job, window, batch, [], NONE_YET)))
    modifies db
    ensures db.Valid() && me in db.Now().calls && |attempted| + left == batch
    ensures db.Now().calls[me] == if r.Ok? then SweepDone(Sweep(Job, window, left, attempted, r.value)) else Ended
    ensures r.Err? ==> me in db.outages
  {
    var report := NONE_YET;
    attempted, left := [], batch;
    for i := 0 to batch
      invariant db.Valid() && |attempted| == i && left == batch - i
      invariant db.At(me, Sweeping(Sweep(Job, window, left, attempted, report)))
    {
      var round;
      round, report := Attempt(db, window, attempted, report, left, me);
      if round.Lost? {
        return Err(()), left, attempted;
      }
      if round.NothingDue? {
        return Ok(report), left, attempted;
      }
      attempted, left := attempted + [round.id], left - 1;
    }
    db.FinishBatch(me, Sweep(Job, window, 0, attempted, report));
    r := Ok(report);
  }

  /** One run for one store scope. Its report covers every account it attempted, none of them twice; and
      had no other caller stepped in between and the clock stood still, they would have been exactly the
      oldest due ones its batch allows. */
  method RefreshOauthCredentials(db: Database, window: int, batchSize: int, ghost me: CallId)
    returns (r: Result<Report, ()>, attempted: seq<AccountId>)
    requires db.Valid() && db.Starts(me)
    modifies db
    ensures db.Valid()
    ensures r.Err? ==> db.At(me, Ended) && me in db.outages
    ensures r.Ok? ==> exists left: nat | left + |attempted| == (if batchSize < 0 then 0 else batchSize) ::
      && db.At(me, SweepDone(Sweep(Job, window, left, attempted, r.value)))
      && ExactIfAlone(db.worlds, db.labels, me, window, left + |attempted|, db.Now().calls[me].sweep)
    ensures r.Ok? ==>
      && Distinct(attempted)
      && r.value.refreshed + r.value.expired + r.value.skipped == |attempted| && r.value.resynced == 0
  {
    var batch := if batchSize < 0 then 0 else batchSize;
    db.Enter(me, Sweeping(Sweep(Job, window, batch, [], NONE_YET)));
    ghost var left;
    r, left, attempted := RunBatch(db, window, batch, me);
    if r.Ok? {
      FinishedRunIsExact(db.worlds, db.labels, me);
      ReportAddsUp(db.worlds, db.labels, |db.labels|, me);
      AttemptedOnceByRun(db.worlds, db.labels, |db.labels|, me);
      assert left + |attempted| == (if batchSize < 0 then 0 else batchSize);
    }
  }
}
