/** Account rows, the statements that write them, and what one refresh decides at each of its points. */
module AccountRows {
  import opened Outcomes
  import opened CredentialStore

  type AccountId = nat

  datatype AccountStatus = Pending | Active | Expired | Revoked

  datatype Account = Account(
    provider: string,
    accountRef: string,
    status: AccountStatus,
    scopes: string,
    verifier: Option<string>,
    expiresAt: Option<int>,
    refreshedAt: Option<int>)

  // ---------------------------------------------------------------- statements

  function NewPending(provider: string, accountRef: string, scopes: string, verifier: Option<string>): Account {
    Account(provider, accountRef, Pending, scopes, verifier, None, None)
  }

  function Activated(a: Account, scopes: string, expiresAt: int, now: int): Account {
    a.(status := Active, scopes := scopes, expiresAt := Some(expiresAt), refreshedAt := Some(now), verifier := None)
  }

  function Disconnected(a: Account): Account {
    a.(status := AccountStatus.Revoked, verifier := None)
  }

  /** WHERE status = 'active' AND expires_at IS NOT NULL AND expires_at < now() + window. */
  predicate Due(a: Account, now: int, window: int) {
    a.status == Active && a.expiresAt.Some? && a.expiresAt.value < now + window
  }

  // ---------------------------------------------------------------- one refresh

  /** The scheduled job's refresh and the service's own. */
  datatype Kind = Job | Service

  /** What the configuration has for a provider: endpoints that resolve when the job asks, endpoints resolved
      when the service was built, and a registered client's id. */
  datatype Setup = Setup(resolvesNow: bool, resolvedAtBuild: bool, clientId: Option<string>)

  /** The job takes any registered client; the service wants one whose id is not blank. */
  predicate Configured(kind: Kind, s: Setup) {
    match kind
    case Job => s.resolvesNow && s.clientId.Some?
    case Service => s.resolvedAtBuild && s.clientId.Some? && !Blank(s.clientId.value)
  }

  /** What a token endpoint is asked, the client's secret and the redirect aside. */
  datatype TokenRequestForm = TokenRequestForm(grantType: string, code: Option<string>, refreshToken: Option<string>,
                                               codeVerifier: Option<string>, clientId: string)

  function CodeForm(code: string, verifier: Option<string>, clientId: string): TokenRequestForm {
    TokenRequestForm("authorization_code", Some(code), None, verifier, clientId)
  }

  function RefreshForm(clientId: string, refreshToken: Option<string>): TokenRequestForm {
    TokenRequestForm("refresh_token", None, refreshToken, None, clientId)
  }

  datatype TokenResponse = TokenResponse(accessToken: string, refreshToken: Option<string>, expiresIn: Option<int>,
                                         scope: Option<string>)

  /** The honest expiry; none when the provider states no positive lifetime. */
  function ExpiresAt(r: TokenResponse, now: int): Option<int> {
    if r.expiresIn.Some? && r.expiresIn.value > 0 then Some(now + r.expiresIn.value) else None
  }

  datatype ExchangeAnswer = Granted(response: TokenResponse) | InvalidGrant | Refused

  datatype Death = Unreadable | NoRefreshToken | DeadGrant | RotateRefused

  /** How far the refresh of a claimed row has come. `Dying`, `LeftDue`, `Stale` and `Stored` end it. */
  datatype Phase =
    | Held
    | HasBundle(bundle: Bundle, sentAt: int)
    | Successor(successor: Bundle, reading: int)
    | Stored(successor: Bundle, reading: int)
    | Stale(expiresAt: int)
    | Dying(cause: Death)
    | LeftDue

  /** Reading the credential. The job looks at its configuration first and never at the bundle's expiry;
      the service trusts a bundle that is still fresh, and looks at its configuration last. */
  function PhaseAfterRead(kind: Kind, configured: bool, window: int, now: int, read: Result<Bundle, StoreFailure>):
    Phase
  {
    match kind
    case Job =>
      if !configured then LeftDue
      else
        (match read
         case Err(Transport) => LeftDue
         case Err(_) => Dying(Unreadable)
         case Ok(b) => if b.refreshToken.None? then Dying(NoRefreshToken) else HasBundle(b, now))
    case Service =>
      match read
      case Err(f) => if f == NotFound || f == NotActive || f == StoreFailure.Expired then Dying(Unreadable) else LeftDue
      case Ok(b) =>
        if b.expiresAt - window >= now then Stale(b.expiresAt)
        else if b.refreshToken.None? then Dying(NoRefreshToken)
        else if !configured then LeftDue
        else HasBundle(b, now)
  }

  /** The provider's answer. The job reads the clock before it asks, the service after. */
  function PhaseAfterExchange(kind: Kind, bundle: Bundle, sentAt: int, now: int, answer: ExchangeAnswer): Phase {
    var reading := if kind == Job then sentAt else now;
    match answer
    case InvalidGrant => Dying(DeadGrant)
    case Refused => LeftDue
    case Granted(r) =>
      match ExpiresAt(r, reading)
      case None => LeftDue
      case Some(e) =>
        Successor(Bundle(r.accessToken,
                         if r.refreshToken.Some? then r.refreshToken else bundle.refreshToken,
                         e,
                         if r.scope.Some? then r.scope else bundle.grantedScope), reading)
  }

  /** The store's answer to the rotation; nothing when the service gives up with an error. */
  function PhaseAfterRotate(kind: Kind, successor: Bundle, reading: int, failure: Option<StoreFailure>): Option<Phase> {
    match failure
    case None => Some(Stored(successor, reading))
    case Some(f) =>
      if kind == Service then None
      else if f == Transport then Some(LeftDue)
      else Some(Dying(RotateRefused))
  }

  predicate Terminal(p: Phase) {
    p.Dying? || p.LeftDue? || p.Stale? || p.Stored?
  }

  /** The row as the refresh commits it. `began` is the transaction's own clock, which the job stamps with. */
  function SettledRow(kind: Kind, p: Phase, began: int, a: Account): Account
    requires Terminal(p)
  {
    match p
    case LeftDue => a
    case Stale(e) => a.(expiresAt := Some(e))
    case Dying(_) =>
      (match kind
       case Job => a.(status := AccountStatus.Expired)
       case Service => if a.status == Active then a.(status := AccountStatus.Expired, verifier := None) else a)
    case Stored(b, reading) =>
      match kind
      case Job => a.(expiresAt := Some(b.expiresAt), refreshedAt := Some(began))
      case Service =>
        a.(expiresAt := Some(b.expiresAt), scopes := if b.grantedScope.Some? then b.grantedScope.value else a.scopes,
           refreshedAt := Some(reading))
  }

  datatype Report = Report(refreshed: nat, resynced: nat, expired: nat, skipped: nat)

  const NONE_YET := Report(0, 0, 0, 0)

  function Counted(r: Report, p: Phase): Report
    requires Terminal(p)
  {
    match p
    case LeftDue => r.(skipped := r.skipped + 1)
    case Stale(_) => r.(resynced := r.resynced + 1)
    case Dying(_) => r.(expired := r.expired + 1)
    case Stored(_, _) => r.(refreshed := r.refreshed + 1)
  }
}
