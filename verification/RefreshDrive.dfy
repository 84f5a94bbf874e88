/** A refresh that nothing interrupts, step by step on the lane, is the one-piece refresh of
    `RefreshAgreement`: so what is shown of that holds of the steps. */
module RefreshDrive {
  import opened Outcomes
  import opened CredentialStore
  import opened AccountRows
  import opened AccountLane
  import opened AccountInvariants
  import opened RefreshAgreement

  function ActAt(p: Phase, x: Answers): RefreshAct {
    match p
    case Held => ReadBundle(x.setup, x.readFailure)
    case HasBundle(_, _) => Exchange(x.exchange)
    case Successor(_, _) => RefreshAct.Rotate(x.rotateFailure)
    case _ => Settle
  }

  function StepsLeft(p: Phase): nat {
    if p.Held? then 3 else if p.HasBundle? then 2 else if p.Successor? then 1 else 0
  }

  predicate IsRefreshing(w: World, c: CallId) {
    c in w.calls && w.calls[c].Refreshing?
  }

  function RefreshLabel(w: World, c: CallId, x: Answers): (l: Label)
    requires IsRefreshing(w, c)
    ensures Enabled(w, l)
  {
    Label(c, OfRefresh(ActAt(w.calls[c].phase, x)))
  }

  lemma StepsDecrease(w: World, c: CallId, x: Answers)
    requires IsRefreshing(w, c) && IsRefreshing(Apply(w, RefreshLabel(w, c, x)), c)
    ensures StepsLeft(Apply(w, RefreshLabel(w, c, x)).calls[c].phase) < StepsLeft(w.calls[c].phase)
  {
    var call := w.calls[c];
    if call.phase.Held? {
    } else if call.phase.HasBundle? {
    } else if call.phase.Successor? {
    } else {
      assert Terminal(call.phase);
    }
  }

  /** Call `c`, alone, until its refresh is over. */
  function Drive(w: World, c: CallId, x: Answers): World
    requires IsRefreshing(w, c)
    decreases StepsLeft(w.calls[c].phase)
  {
    var v := Apply(w, RefreshLabel(w, c, x));
    if IsRefreshing(v, c) then StepsDecrease(w, c, x); Drive(v, c, x) else v
  }

  lemma {:induction false} DriveKeeps(w: World, c: CallId, x: Answers)
    requires Inv(w) && IsRefreshing(w, c)
    ensures Inv(Drive(w, c, x))
    decreases StepsLeft(w.calls[c].phase)
  {
    var l := RefreshLabel(w, c, x);
    StepKeeps(w, l);
    if IsRefreshing(Apply(w, l), c) {
      StepsDecrease(w, c, x);
      DriveKeeps(Apply(w, l), c, x);
    }
  }

  /** What the refresh of call `c`, over by `v`, did to `w`. */
  ghost predicate Did(w: World, c: CallId, v: World, p: Option<Phase>, entry: Entry)
    requires IsRefreshing(w, c) && (p.Some? ==> Terminal(p.value))
  {
    var call := w.calls[c];
    && v.accounts == (if p.Some? then SettledIn(w.accounts, call.(phase := p.value)) else w.accounts)
    && v.locks == w.locks - {call.id}
    && EntryAt(v.store, ScopeOf(w, call.provider, call.accountRef)) == entry
    && (forall s | s != ScopeOf(w, call.provider, call.accountRef) :: EntryAt(v.store, s) == EntryAt(w.store, s))
    && c in v.calls
    && v.calls[c] == (if p.Some? then Sweeping(call.sweep.(report := Counted(call.sweep.report, p.value))) else Ended)
  }

  function OwnEntry(w: World, c: CallId): Entry
    requires IsRefreshing(w, c)
  {
    EntryAt(w.store, ScopeOf(w, w.calls[c].provider, w.calls[c].accountRef))
  }

  lemma DriveEnds(w: World, c: CallId, x: Answers)
    requires IsRefreshing(w, c) && Pinned(w, c, w.calls[c]) && Terminal(w.calls[c].phase)
    ensures Did(w, c, Drive(w, c, x), Some(w.calls[c].phase), OwnEntry(w, c))
  {
    assert Apply(w, RefreshLabel(w, c, x)) == Drive(w, c, x);
  }

  function AfterRotation(w: World, c: CallId, x: Answers): Option<Phase>
    requires IsRefreshing(w, c) && w.calls[c].phase.Successor?
  {
    PhaseAfterRotate(w.calls[c].sweep.kind, w.calls[c].phase.successor, w.calls[c].phase.reading,
                     FirstOf(x.rotateFailure, RotateAnswer(OwnEntry(w, c))))
  }

  lemma DriveRotates(w: World, c: CallId, x: Answers)
    requires IsRefreshing(w, c) && Pinned(w, c, w.calls[c]) && w.calls[c].phase.Successor?
    ensures AfterRotation(w, c, x).Some? ==> Terminal(AfterRotation(w, c, x).value)
    ensures Did(w, c, Drive(w, c, x), AfterRotation(w, c, x),
                if x.rotateFailure.None? then Rotated(OwnEntry(w, c), w.calls[c].phase.successor) else OwnEntry(w, c))
  {
    var l := RefreshLabel(w, c, x);
    var v := Apply(w, l);
    if IsRefreshing(v, c) {
      StepsDecrease(w, c, x);
      DriveEnds(v, c, x);
    }
  }

  lemma DriveExchanges(w: World, c: CallId, x: Answers)
    requires IsRefreshing(w, c) && Pinned(w, c, w.calls[c]) && w.calls[c].phase.HasBundle?
    ensures
      var call := w.calls[c];
      var asked := PhaseAfterExchange(call.sweep.kind, call.phase.bundle, call.phase.sentAt, w.clock, x.exchange);
      if asked.Successor? then Drive(w, c, x) == Drive(w.(calls := w.calls[c := call.(phase := asked)]), c, x)
      else Terminal(asked) && Did(w, c, Drive(w, c, x), Some(asked), OwnEntry(w, c))
  {
    var l := RefreshLabel(w, c, x);
    var v := Apply(w, l);
    var call := w.calls[c];
    var asked := PhaseAfterExchange(call.sweep.kind, call.phase.bundle, call.phase.sentAt, w.clock, x.exchange);
    assert v == w.(calls := w.calls[c := call.(phase := asked)]);
    StepsDecrease(w, c, x);
    if !asked.Successor? { DriveEnds(v, c, x); }
  }

  /** The world with call `c` one phase further, and nothing else changed. */
  function InPhase(w: World, c: CallId, p: Phase): World
    requires IsRefreshing(w, c)
  {
    w.(calls := w.calls[c := w.calls[c].(phase := p)])
  }

  /** From the successor on, and from the bundle on: the one-piece refresh's own tail. */
  lemma DriveFromBundle(w: World, c: CallId, x: Answers)
    requires IsRefreshing(w, c) && Pinned(w, c, w.calls[c]) && w.calls[c].phase.HasBundle?
    ensures
      var call := w.calls[c];
      var asked := PhaseAfterExchange(call.sweep.kind, call.phase.bundle, call.phase.sentAt, w.clock, x.exchange);
      var p := if asked.Successor? then AfterRotation(InPhase(w, c, asked), c, x) else Some(asked);
      var rotated := asked.Successor? && x.rotateFailure.None?;
      && (p.Some? ==> Terminal(p.value))
      && Did(w, c, Drive(w, c, x), p, if rotated then Rotated(OwnEntry(w, c), asked.successor) else OwnEntry(w, c))
  {
    DriveExchanges(w, c, x);
    var call := w.calls[c];
    var asked := PhaseAfterExchange(call.sweep.kind, call.phase.bundle, call.phase.sentAt, w.clock, x.exchange);
    if asked.Successor? {
      DriveRotates(InPhase(w, c, asked), c, x);
    }
  }

  lemma DriveReads(w: World, c: CallId, x: Answers)
    requires IsRefreshing(w, c) && Pinned(w, c, w.calls[c]) && w.calls[c].phase.Held?
    ensures
      var s := w.calls[c].sweep;
      var read := PhaseAfterRead(s.kind, Configured(s.kind, x.setup), s.window, w.clock,
                                 ReadOf(OwnEntry(w, c), w.clock, x.readFailure));
      if read.HasBundle? then Drive(w, c, x) == Drive(InPhase(w, c, read), c, x)
      else Terminal(read) && Did(w, c, Drive(w, c, x), Some(read), OwnEntry(w, c))
  {
    var s := w.calls[c].sweep;
    var read := PhaseAfterRead(s.kind, Configured(s.kind, x.setup), s.window, w.clock,
                               ReadOf(OwnEntry(w, c), w.clock, x.readFailure));
    assert Apply(w, RefreshLabel(w, c, x)) == InPhase(w, c, read);
    StepsDecrease(w, c, x);
    if !read.HasBundle? { DriveEnds(InPhase(w, c, read), c, x); }
  }

  /** Claim to commit without interruption does to the row, to the store and to the report what the
      one-piece refresh says, and nothing to any other row or scope. */
  lemma DriveIsRefresh(w: World, c: CallId, x: Answers)
    requires Inv(w) && IsRefreshing(w, c) && w.calls[c].phase.Held? && w.calls[c].began == w.clock
    ensures
      var call := w.calls[c];
      var (p, entry) := Finished(call.sweep.kind, call.sweep.window, w.clock, x, OwnEntry(w, c));
      && call.id in w.accounts && (p.Some? ==> Terminal(p.value)) && Did(w, c, Drive(w, c, x), p, entry)
      && Drive(w, c, x).accounts
         == (var (kind, window) := (call.sweep.kind, call.sweep.window);
             w.accounts[call.id := Refresh(kind, window, w.clock, x, w.accounts[call.id], OwnEntry(w, c)).row])
  {
    var call := w.calls[c];
    assert Pinned(w, c, call);
    FinishedIsTerminal(call.sweep.kind, call.sweep.window, w.clock, x, OwnEntry(w, c));
    DriveReads(w, c, x);
    var read := PhaseAfterRead(call.sweep.kind, Configured(call.sweep.kind, x.setup), call.sweep.window, w.clock,
                               ReadOf(OwnEntry(w, c), w.clock, x.readFailure));
    if read.HasBundle? {
      DriveFromBundle(InPhase(w, c, read), c, x);
    }
  }

  // ---------------------------------------------------------------- job against service, on the lane

  /** The same world with call `c` refreshing as the other kind of sweep would. */
  function AsKind(w: World, c: CallId, kind: Kind): World
    requires IsRefreshing(w, c)
  {
    w.(calls := w.calls[c := w.calls[c].(sweep := w.calls[c].sweep.(kind := kind))])
  }

  lemma InvAsKind(w: World, c: CallId, kind: Kind)
    requires Inv(w) && IsRefreshing(w, c)
    ensures Inv(AsKind(w, c, kind))
  {
    var v := AsKind(w, c, kind);
    forall d | d in v.calls ensures CallHolds(v, v.calls[d]) && (v.calls[d].Refreshing? ==> Pinned(v, d, v.calls[d])) {
      assert CallHolds(w, w.calls[d]);
      assert w.calls[d].Refreshing? ==> Pinned(w, d, w.calls[d]);
    }
    forall id | id in v.locks ensures HolderRuns(v, id) {
      assert HolderRuns(w, id);
    }
  }

  function OutcomeOf(w: World, c: CallId, kind: Kind, x: Answers): Outcome
    requires IsRefreshing(w, c) && w.calls[c].id in w.accounts
  {
    Refresh(kind, w.calls[c].sweep.window, w.clock, x, w.accounts[w.calls[c].id], OwnEntry(w, c))
  }

  function CountedBy(r: Report, ending: Ending): Report {
    match ending
    case Refreshed => r.(refreshed := r.refreshed + 1)
    case Resynced => r.(resynced := r.resynced + 1)
    case Expired => r.(expired := r.expired + 1)
    case Skipped => r.(skipped := r.skipped + 1)
    case GaveUp => r
  }

  /** World `v` is what an uninterrupted refresh of call `c` with outcome `o` makes of `w`. */
  ghost predicate Shows(w: World, c: CallId, v: World, o: Outcome)
    requires IsRefreshing(w, c)
  {
    && v.accounts == w.accounts[w.calls[c].id := o.row]
    && (forall s :: EntryAt(v.store, s) ==
          if s == ScopeOf(w, w.calls[c].provider, w.calls[c].accountRef) then o.entry else EntryAt(w.store, s))
    && c in v.calls && (v.calls[c].Ended? <==> o.ending == GaveUp)
    && (v.calls[c].Sweeping? <==> o.ending != GaveUp)
    && (v.calls[c].Sweeping? ==> v.calls[c].sweep.report == CountedBy(w.calls[c].sweep.report, o.ending))
  }

  lemma DidShows(w: World, c: CallId, v: World, p: Option<Phase>, o: Outcome)
    requires IsRefreshing(w, c) && (p.Some? ==> Terminal(p.value)) && Did(w, c, v, p, o.entry)
    requires v.accounts == w.accounts[w.calls[c].id := o.row] && o.ending == EndingOf(p)
    ensures Shows(w, c, v, o)
  {
  }

  lemma DriveShowsOwn(w: World, c: CallId, x: Answers)
    requires Inv(w) && IsRefreshing(w, c) && w.calls[c].phase.Held? && w.calls[c].began == w.clock
    ensures w.calls[c].id in w.accounts && Shows(w, c, Drive(w, c, x), OutcomeOf(w, c, w.calls[c].sweep.kind, x))
  {
    DriveIsRefresh(w, c, x);
    var p := Finished(w.calls[c].sweep.kind, w.calls[c].sweep.window, w.clock, x, OwnEntry(w, c)).0;
    DidShows(w, c, Drive(w, c, x), p, OutcomeOf(w, c, w.calls[c].sweep.kind, x));
  }

  lemma ShowsAsKind(w: World, c: CallId, kind: Kind, v: World, o: Outcome)
    requires IsRefreshing(w, c) && Shows(AsKind(w, c, kind), c, v, o)
    ensures Shows(w, c, v, o)
  {
  }

  lemma DriveShows(w: World, c: CallId, kind: Kind, x: Answers)
    requires Inv(w) && IsRefreshing(w, c) && w.calls[c].phase.Held? && w.calls[c].began == w.clock
    ensures w.calls[c].id in w.accounts && Shows(w, c, Drive(AsKind(w, c, kind), c, x), OutcomeOf(w, c, kind, x))
  {
    InvAsKind(w, c, kind);
    var u := AsKind(w, c, kind);
    DriveShowsOwn(u, c, x);
    ShowsAsKind(w, c, kind, Drive(u, c, x), OutcomeOf(u, c, kind, x));
  }

  /** The two worlds agree on the table, this account's scopes aside, on the store, and on the count. */
  ghost predicate Agree(job: World, service: World, c: CallId, id: AccountId) {
    && id in job.accounts && id in service.accounts
    && job.accounts[id := job.accounts[id].(scopes := "")]
       == service.accounts[id := service.accounts[id].(scopes := "")]
    && (forall s :: EntryAt(job.store, s) == EntryAt(service.store, s))
    && c in job.calls && c in service.calls && job.calls[c].Ended? == service.calls[c].Ended?
    && (job.calls[c].Sweeping? && service.calls[c].Sweeping? ==>
          job.calls[c].sweep.report == service.calls[c].sweep.report)
  }

  lemma AgreeAsOutcomes(w: World, c: CallId, job: World, service: World, o: Outcome, u: Outcome)
    requires IsRefreshing(w, c) && Shows(w, c, job, o) && Shows(w, c, service, u)
    ensures Agree(job, service, c, w.calls[c].id) <==> AlikeButScopes(o, u)
  {
    var (id, scope) := (w.calls[c].id, ScopeOf(w, w.calls[c].provider, w.calls[c].accountRef));
    assert job.accounts[id := o.row.(scopes := "")] == w.accounts[id := o.row.(scopes := "")];
    assert service.accounts[id := u.row.(scopes := "")] == w.accounts[id := u.row.(scopes := "")];
    assert w.accounts[id := o.row.(scopes := "")][id] == o.row.(scopes := "");
    assert w.accounts[id := u.row.(scopes := "")][id] == u.row.(scopes := "");
    assert EntryAt(job.store, scope) == o.entry && EntryAt(service.store, scope) == u.entry;
  }

  /** Whoever refreshes a claimed account without interruption, job or service, leaves the same table (the
      account's scopes aside), the same store and the same count, exactly under `SameConditions`. */
  lemma RefreshersAgreeOnTheLane(w: World, c: CallId, x: Answers)
    requires Inv(w) && IsRefreshing(w, c) && w.calls[c].phase.Held? && w.calls[c].began == w.clock
    ensures Agree(Drive(AsKind(w, c, Job), c, x), Drive(AsKind(w, c, Service), c, x), c, w.calls[c].id)
            <==> SameConditions(w.calls[c].sweep.window, w.clock, x, OwnEntry(w, c))
  {
    DriveShows(w, c, Job, x);
    DriveShows(w, c, Service, x);
    AgreeAsOutcomes(w, c, Drive(AsKind(w, c, Job), c, x), Drive(AsKind(w, c, Service), c, x),
                    OutcomeOf(w, c, Job, x), OutcomeOf(w, c, Service, x));
    assert Pinned(w, c, w.calls[c]) && Shaped(w.accounts[w.calls[c].id]);
    RefreshersAgreeExactly(w.calls[c].sweep.window, w.clock, x, w.accounts[w.calls[c].id], OwnEntry(w, c));
  }

  // ---------------------------------------------------------------- a fresh credential, on the lane

  /** The next service refresh of the account, in whatever world it finds itself by then: as long as the
      credential is still fresh it gives the row the credential's expiry and does nothing else, whatever
      provider and store would answer. */
  lemma FreshIsOnlyMirrored(w: World, c: CallId, x: Answers)
    requires Inv(w) && IsRefreshing(w, c) && w.calls[c].phase.Held? && w.calls[c].began == w.clock
    requires w.calls[c].sweep.kind == Service && x.readFailure.None?
    requires FreshInStore(w.calls[c].sweep.window, w.clock, OwnEntry(w, c))
    ensures
      var (v, id) := (Drive(w, c, x), w.calls[c].id);
      && id in w.accounts
      && v.accounts == w.accounts[id := w.accounts[id].(expiresAt := Some(OwnEntry(w, c).credential.expiresAt))]
      && (forall s :: EntryAt(v.store, s) == EntryAt(w.store, s))
      && c in v.calls
      && var (s, r) := (w.calls[c].sweep, w.calls[c].sweep.report);
         v.calls[c] == Sweeping(s.(report := r.(resynced := r.resynced + 1)))
  {
    DriveIsRefresh(w, c, x);
    FreshCredentialOnlyResyncs(w.calls[c].sweep.window, w.clock, x, w.accounts[w.calls[c].id], OwnEntry(w, c));
  }
}
