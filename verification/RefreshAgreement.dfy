/** The two single-account refreshers side by side: the scheduled job's and the service's, from claim to
    commit under one clock reading. */
module RefreshAgreement {
  import opened Outcomes
  import opened CredentialStore
  import opened AccountRows
  import opened AccountLane
  import opened AccountInvariants

  /** Everything the outside answers in one refresh; an injected store failure precedes any effect. */
  datatype Answers = Answers(
    setup: Setup, readFailure: Option<StoreFailure>, exchange: ExchangeAnswer, rotateFailure: Option<StoreFailure>)

  /** Where a refresh ends, with the store's entry; no phase when it gives up with an error. */
  function Finished(kind: Kind, window: int, now: int, x: Answers, entry: Entry): (Option<Phase>, Entry) {
    var read := PhaseAfterRead(kind, Configured(kind, x.setup), window, now, ReadOf(entry, now, x.readFailure));
    if !read.HasBundle? then (Some(read), entry)
    else
      var asked := PhaseAfterExchange(kind, read.bundle, read.sentAt, now, x.exchange);
      if !asked.Successor? then (Some(asked), entry)
      else (PhaseAfterRotate(kind, asked.successor, asked.reading, FirstOf(x.rotateFailure, RotateAnswer(entry))),
            if x.rotateFailure.None? then Rotated(entry, asked.successor) else entry)
  }

  datatype Ending = Refreshed | Resynced | Expired | Skipped | GaveUp

  function EndingOf(p: Option<Phase>): Ending {
    match p
    case None => GaveUp
    case Some(Stored(_, _)) => Refreshed
    case Some(Stale(_)) => Resynced
    case Some(Dying(_)) => Ending.Expired
    case _ => Skipped
  }

  datatype Outcome = Outcome(ending: Ending, row: Account, entry: Entry)

  lemma FinishedIsTerminal(kind: Kind, window: int, now: int, x: Answers, entry: Entry)
    ensures Finished(kind, window, now, x, entry).0.Some? ==> Terminal(Finished(kind, window, now, x, entry).0.value)
  {
    var read := PhaseAfterRead(kind, Configured(kind, x.setup), window, now, ReadOf(entry, now, x.readFailure));
    if read.HasBundle? {
      var asked := PhaseAfterExchange(kind, read.bundle, read.sentAt, now, x.exchange);
    }
  }

  /** One refresh of a claimed account: its ending, its row and its scope's entry afterwards. */
  function Refresh(kind: Kind, window: int, now: int, x: Answers, a: Account, entry: Entry): Outcome {
    FinishedIsTerminal(kind, window, now, x, entry);
    var (p, e) := Finished(kind, window, now, x, entry);
    Outcome(EndingOf(p), if p.Some? then SettledRow(kind, p.value, now, a) else a, e)
  }

  // ---------------------------------------------------------------- agreement

  /** Alike but for the granted scopes, which only the service writes down. */
  predicate AlikeButScopes(o: Outcome, u: Outcome) {
    o.ending == u.ending && o.row.(scopes := "") == u.row.(scopes := "") && o.entry == u.entry
  }

  predicate DeadAnswer(f: StoreFailure) {
    f == NotFound || f == NotActive || f == StoreFailure.Expired
  }

  predicate Storeable(now: int, answer: ExchangeAnswer) {
    answer.Granted? && ExpiresAt(answer.response, now).Some?
  }

  /** Both exchange: the answer is no storeable grant, or the store takes the rotation. */
  predicate BothAlike(now: int, x: Answers) {
    Storeable(now, x.exchange) ==> x.rotateFailure.None?
  }

  /** One exchanges and the other leaves the account due: so must the one, which it does on a refusal and on
      an unstoreable grant, and the job also when the store is out of reach at the rotation. */
  predicate LoneExchangeIsVain(kind: Kind, now: int, x: Answers) {
    && !x.exchange.InvalidGrant?
    && (Storeable(now, x.exchange) ==> kind == Job && x.rotateFailure == Some(Transport))
  }

  /** When the two refreshers do the same. They part on a credential that is still fresh, which only the
      service trusts; on a store failure that is neither a dead credential nor the transport; on a
      refused rotation; and wherever only one of them counts the provider as configured, as with a client
      whose id is blank, unless that one gets nothing done either. */
  predicate SameConditions(window: int, now: int, x: Answers, entry: Entry) {
    var (job, service) := (Configured(Job, x.setup), Configured(Service, x.setup));
    match ReadOf(entry, now, x.readFailure)
    case Err(f) => if DeadAnswer(f) then job else f == Transport || !job
    case Ok(b) =>
      && b.expiresAt - window < now
      && if b.refreshToken.None? then job
         else if job && service then BothAlike(now, x)
         else if job then LoneExchangeIsVain(Job, now, x)
         else if service then LoneExchangeIsVain(Service, now, x)
         else true
  }

  /** For any active row, even one the lifecycle does not allow: a verifier left on it parts them whenever it
      expires, since the service clears it and the job does not. */
  lemma RefreshersAgreeOnAnyRow(window: int, now: int, x: Answers, a: Account, entry: Entry)
    requires a.status == Active
    ensures AlikeButScopes(Refresh(Job, window, now, x, a, entry), Refresh(Service, window, now, x, a, entry))
            <==> SameConditions(window, now, x, entry)
                 && (Refresh(Job, window, now, x, a, entry).ending == Ending.Expired ==> a.verifier.None?)
  {
    var read := ReadOf(entry, now, x.readFailure);
    if read.Ok? && read.value.refreshToken.Some? && read.value.expiresAt - window < now {
      if Configured(Job, x.setup) { ExchangeEnds(Job, window, now, x, a, entry); }
      if Configured(Service, x.setup) { ExchangeEnds(Service, window, now, x, a, entry); }
    }
  }

  /** For an active row as the lifecycle keeps it, job and service reach the same ending, row (scopes
      aside) and store entry exactly under those conditions. */
  lemma RefreshersAgreeExactly(window: int, now: int, x: Answers, a: Account, entry: Entry)
    requires a.status == Active && Shaped(a)
    ensures AlikeButScopes(Refresh(Job, window, now, x, a, entry), Refresh(Service, window, now, x, a, entry))
            <==> SameConditions(window, now, x, entry)
  {
    RefreshersAgreeOnAnyRow(window, now, x, a, entry);
  }

  function RefusedEnding(kind: Kind, f: StoreFailure): Ending {
    if kind == Service then GaveUp else if f == Transport then Skipped else Ending.Expired
  }

  /** How a refresh ends that gets as far as asking the provider. */
  lemma ExchangeEnds(kind: Kind, window: int, now: int, x: Answers, a: Account, entry: Entry)
    requires a.status == Active && Configured(kind, x.setup)
    requires
      var read := ReadOf(entry, now, x.readFailure);
      read.Ok? && read.value.refreshToken.Some? && read.value.expiresAt - window < now
    ensures
      var o := Refresh(kind, window, now, x, a, entry);
      && (x.exchange.InvalidGrant? ==>
            && o.ending == Ending.Expired && o.entry == entry
            && o.row == a.(status := AccountStatus.Expired, verifier := if kind == Job then a.verifier else None))
      && (!x.exchange.InvalidGrant? && !Storeable(now, x.exchange) ==> o == Outcome(Skipped, a, entry))
      && (Storeable(now, x.exchange) && x.rotateFailure.None? ==> o.ending == Refreshed)
      && (Storeable(now, x.exchange) && x.rotateFailure.Some? ==>
            o.entry == entry && o.ending == RefusedEnding(kind, x.rotateFailure.value))
      && (o.ending == Skipped ==> o.row == a && o.entry == entry)
  {
    var b := ReadOf(entry, now, x.readFailure).value;
    assert PhaseAfterRead(kind, true, window, now, Ok(b)) == HasBundle(b, now);
  }

  /** A blank client id is one of the cases: the job refreshes where the service leaves the account due. */
  lemma BlankClientParts(window: int, now: int, x: Answers, a: Account, entry: Entry)
    requires a.status == Active
    requires x.setup.resolvesNow && x.setup.resolvedAtBuild && x.setup.clientId.Some? && Blank(x.setup.clientId.value)
    requires
      var read := ReadOf(entry, now, x.readFailure);
      read.Ok? && read.value.refreshToken.Some? && read.value.expiresAt - window < now
    requires Storeable(now, x.exchange) && x.rotateFailure.None?
    ensures Refresh(Job, window, now, x, a, entry).ending == Refreshed
    ensures Refresh(Service, window, now, x, a, entry) == Outcome(Skipped, a, entry)
    ensures !SameConditions(window, now, x, entry)
  {
    ExchangeEnds(Job, window, now, x, a, entry);
  }

  // ---------------------------------------------------------------- a fresh credential

  /** The scope's live credential is readable and needs no refresh yet. */
  predicate FreshInStore(window: int, now: int, entry: Entry) {
    entry.Live? && entry.credential.expiresAt > now && entry.credential.expiresAt - window >= now
  }

  /** The service trusts a fresh credential: it mirrors its expiry, asks nobody, writes nothing to the
      store, whatever provider and store would have answered. */
  lemma FreshCredentialOnlyResyncs(window: int, now: int, x: Answers, a: Account, entry: Entry)
    requires FreshInStore(window, now, entry) && x.readFailure.None?
    ensures
      var mirrored := a.(expiresAt := Some(entry.credential.expiresAt));
      Refresh(Service, window, now, x, a, entry) == Outcome(Resynced, mirrored, entry)
  {
  }

  /** The job exchanges and rotates again, however fresh the credential. */
  lemma JobAlwaysExchanges(window: int, now: int, x: Answers, a: Account, b: Bundle)
    requires FreshInStore(window, now, Live(b)) && b.refreshToken.Some? && Configured(Job, x.setup)
    requires x.readFailure.None?
    requires Storeable(now, x.exchange) && x.rotateFailure.None?
    ensures Refresh(Job, window, now, x, a, Live(b)).ending == Refreshed
    ensures Refresh(Job, window, now, x, a, Live(b)).entry.Live?
    ensures Refresh(Job, window, now, x, a, Live(b)).entry.credential.accessToken == x.exchange.response.accessToken
  {
    assert PhaseAfterRead(Job, true, window, now, Ok(b)) == HasBundle(b, now);
  }

  /** So a fresh credential is another of the cases: after the same answers the job has replaced it, and the
      service has kept it and mirrored its expiry. */
  lemma FreshCredentialParts(window: int, now: int, x: Answers, a: Account, b: Bundle)
    requires FreshInStore(window, now, Live(b)) && b.refreshToken.Some? && Configured(Job, x.setup)
    requires x.readFailure.None? && Storeable(now, x.exchange) && x.rotateFailure.None?
    ensures
      var (job, service) := (Refresh(Job, window, now, x, a, Live(b)), Refresh(Service, window, now, x, a, Live(b)));
      && job.ending == Refreshed && job.entry.Live?
      && job.entry.credential.accessToken == x.exchange.response.accessToken
      && service == Outcome(Resynced, a.(expiresAt := Some(b.expiresAt)), Live(b))
    ensures !SameConditions(window, now, x, Live(b))
  {
    JobAlwaysExchanges(window, now, x, a, b);
    FreshCredentialOnlyResyncs(window, now, x, a, Live(b));
  }
}
