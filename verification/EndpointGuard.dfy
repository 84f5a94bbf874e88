/** The outbound endpoint guard: provider registry, endpoint rules, and what "validated" is worth later.

    URL parsing and the IP-literal test are libraries; a URL is the record of its components. */
module EndpointGuard {
  import opened Outcomes
  import opened Strings

  datatype Url = Url(
    scheme: string,
    host: Option<string>,
    username: string,
    password: Option<string>,
    port: Option<nat>,
    path: string,
    query: Option<string>,
    fragment: Option<string>)

  datatype Libraries = Libraries(parse: string -> Option<Url>, show: Url -> string, isIp: string -> bool)

  /** A parsed URL, printed, parses to itself. */
  ghost predicate Reparses(lib: Libraries) {
    forall s :: lib.parse(s).Some? ==> lib.parse(lib.show(lib.parse(s).value)) == lib.parse(s)
  }

  datatype EndpointKey = Authorize | Token | Userinfo

  datatype Reason =
    | NotParseable | SchemeNotHttps | NoHost | UserinfoForbidden | IpLiteral | NotOnAllowlist
    | PortForbidden | RootPath | QueryForbidden | FragmentForbidden | NotRegistered

  datatype InvalidEndpoint = InvalidEndpoint(provider: string, key: EndpointKey, url: string, reason: Reason)

  datatype ValidatedEndpoint = ValidatedEndpoint(providerKey: string, key: EndpointKey, url: Url)

  datatype ProviderAdapter = ProviderAdapter(
    provider: string,
    authorizeEndpoint: string,
    tokenEndpoint: string,
    userinfoEndpoint: string,
    defaultScopes: string,
    pkceS256: bool,
    hostAllowlist: seq<string>)

  // ---------------------------------------------------------------- the host rule

  function LowerChar(c: char): char {
    if 'A' <= c <= 'Z' then (c as int + 32) as char else c
  }

  function ToLower(s: string): (t: string)
    ensures |t| == |s|
  {
    seq(|s|, i requires 0 <= i < |s| => LowerChar(s[i]))
  }

  /** The same ASCII letter, in either case, or the same character. */
  predicate SameLetter(c: char, d: char) {
    || c == d
    || ('A' <= c <= 'Z' && d as int == c as int + 32)
    || ('A' <= d <= 'Z' && c as int == d as int + 32)
  }

  predicate SameText(a: string, b: string) {
    |a| == |b| && forall i | 0 <= i < |a| :: SameLetter(a[i], b[i])
  }

  /** Comparing in lower case is comparing letter by letter. */
  lemma LowerCaseExactly(a: string, b: string)
    ensures ToLower(a) == ToLower(b) <==> SameText(a, b)
  {
    if ToLower(a) == ToLower(b) {
      forall i | 0 <= i < |a| ensures SameLetter(a[i], b[i]) {
        assert ToLower(a)[i] == ToLower(b)[i];
      }
    }
  }

  predicate EndsWith(s: string, suffix: string) {
    |suffix| <= |s| && s[|s| - |suffix|..] == suffix
  }

  predicate HostMatches(host: string, entry: string) {
    var (h, e) := (ToLower(host), ToLower(entry));
    h == e || EndsWith(h, "." + e)
  }

  predicate HostAllowed(host: string, allowlist: seq<string>) {
    exists i :: 0 <= i < |allowlist| && HostMatches(host, allowlist[i])
  }

  function StripBrackets(host: string): string {
    if |host| >= 2 && host[0] == '[' && host[|host| - 1] == ']' then host[1..|host| - 1] else host
  }

  function Labels(host: string): seq<string> {
    Split(ToLower(host), '.')
  }

  predicate LabelsEndWith(labels: seq<string>, suffix: seq<string>) {
    |suffix| <= |labels| && labels[|labels| - |suffix|..] == suffix
  }

  lemma DottedEnding(h: string, e: string)
    requires EndsWith(h, "." + e)
    ensures LabelsEndWith(Split(h, '.'), Split(e, '.'))
  {
    var prefix := h[..|h| - |e| - 1];
    assert h == prefix + ['.'] + e by {
      assert h == h[..|h| - |"." + e|] + h[|h| - |"." + e|..];
    }
    SplitConcat(prefix, '.', e);
    assert (Split(prefix, '.') + Split(e, '.'))[|Split(prefix, '.')|..] == Split(e, '.');
  }

  lemma JoinedEnding(l: seq<string>, k: seq<string>)
    requires LabelsEndWith(l, k) && k != []
    ensures Join(l, '.') == Join(k, '.') || EndsWith(Join(l, '.'), "." + Join(k, '.'))
  {
    var n := |l| - |k|;
    if n == 0 {
      assert l[0..] == l;
    } else {
      assert l == l[..n] + k;
      JoinConcat(l[..n], k, '.');
      assert Join(l, '.') == Join(l[..n], '.') + ("." + Join(k, '.'));
    }
  }

  /** The textual test is the test on labels: a host matches an entry exactly when its dot-separated
      labels, ASCII case aside, end with the entry's. */
  lemma HostRuleIsOnLabels(host: string, entry: string)
    ensures HostMatches(host, entry) <==> LabelsEndWith(Labels(host), Labels(entry))
  {
    var h, e := ToLower(host), ToLower(entry);
    if EndsWith(h, "." + e) { DottedEnding(h, e); }
    if LabelsEndWith(Split(h, '.'), Split(e, '.')) {
      JoinSplit(h, '.');
      JoinSplit(e, '.');
      JoinedEnding(Split(h, '.'), Split(e, '.'));
    }
  }

  /** Letter by letter: a host matches an entry exactly when it is the entry, or ends in a dot and the entry. */
  lemma HostRuleIsOnLetters(host: string, entry: string)
    ensures HostMatches(host, entry) <==>
      && |entry| <= |host| && SameText(host[|host| - |entry|..], entry)
      && (|entry| == |host| || host[|host| - |entry| - 1] == '.')
  {
    var (h, e, n) := (ToLower(host), ToLower(entry), |host| - |entry|);
    LowerCaseExactly(host, entry);
    if n == 0 {
      assert host[0..] == host;
    } else if n > 0 {
      LowerCaseExactly(host[n..], entry);
      assert h[n..] == ToLower(host[n..]);
      assert h[n - 1..] == [h[n - 1]] + h[n..];
      assert ("." + e)[0] == '.' && ("." + e)[1..] == e;
    }
  }

  // ---------------------------------------------------------------- the rule set

  /** The first rule a URL breaks, in the order they are checked. */
  function Violation(lib: Libraries, allowlist: seq<string>, url: Url): Option<Reason> {
    if url.scheme != "https" then Some(SchemeNotHttps)
    else if url.host.None? || url.host.value == "" then Some(NoHost)
    else if url.username != "" || url.password.Some? then Some(UserinfoForbidden)
    else if lib.isIp(StripBrackets(url.host.value)) then Some(IpLiteral)
    else if !HostAllowed(url.host.value, allowlist) then Some(NotOnAllowlist)
    else if url.port.Some? && url.port.value != 443 then Some(PortForbidden)
    else if url.path == "" || url.path == "/" then Some(RootPath)
    else if url.query.Some? then Some(QueryForbidden)
    else if url.fragment.Some? then Some(FragmentForbidden)
    else None
  }

  function ValidateEndpoint(lib: Libraries, provider: string, key: EndpointKey, allowlist: seq<string>, text: string):
    Result<ValidatedEndpoint, InvalidEndpoint>
  {
    match lib.parse(text)
    case None => Err(InvalidEndpoint(provider, key, text, NotParseable))
    case Some(url) =>
      match Violation(lib, allowlist, url)
      case Some(reason) => Err(InvalidEndpoint(provider, key, text, reason))
      case None => Ok(ValidatedEndpoint(provider, key, url))
  }

  /** Without the brackets around it, if it has any, the host is not the text of an address. */
  ghost predicate NoAddress(lib: Libraries, host: string) {
    && (forall inner :: host == "[" + inner + "]" ==> !lib.isIp(inner))
    && (lib.isIp(host) ==> exists inner :: host == "[" + inner + "]")
  }

  lemma BracketsOff(lib: Libraries, host: string)
    ensures lib.isIp(StripBrackets(host)) <==> !NoAddress(lib, host)
  {
    if |host| >= 2 && host[0] == '[' && host[|host| - 1] == ']' {
      assert host == "[" + host[1..|host| - 1] + "]";
      forall inner | host == "[" + inner + "]" ensures inner == host[1..|host| - 1] {}
    } else {
      forall inner ensures host != "[" + inner + "]" {
        assert ("[" + inner + "]")[0] == '[' && ("[" + inner + "]")[|inner| + 1] == ']';
      }
    }
  }

  /** What an accepted URL is: https, a bare allowlisted name, the default port, a path and nothing after it. */
  ghost predicate Acceptable(lib: Libraries, allowlist: seq<string>, url: Url) {
    && url.scheme == "https" && url.username == "" && url.password.None?
    && url.host.Some? && url.host.value != "" && NoAddress(lib, url.host.value)
    && (exists i :: 0 <= i < |allowlist| && LabelsEndWith(Labels(url.host.value), Labels(allowlist[i])))
    && (url.port.None? || url.port.value == 443)
    && url.path != "" && url.path != "/" && url.query.None? && url.fragment.None?
  }

  /** Deny by default: validation accepts exactly the acceptable URLs, as they were parsed. */
  lemma AcceptedExactly(lib: Libraries, provider: string, key: EndpointKey, allowlist: seq<string>, text: string)
    ensures var r := ValidateEndpoint(lib, provider, key, allowlist, text);
      && (r.Ok? <==> lib.parse(text).Some? && Acceptable(lib, allowlist, lib.parse(text).value))
      && (r.Ok? ==> r.value == ValidatedEndpoint(provider, key, lib.parse(text).value))
  {
    if lib.parse(text).Some? && lib.parse(text).value.host.Some? {
      var host := lib.parse(text).value.host.value;
      BracketsOff(lib, host);
      forall i | 0 <= i < |allowlist|
        ensures HostMatches(host, allowlist[i]) <==> LabelsEndWith(Labels(host), Labels(allowlist[i]))
      {
        HostRuleIsOnLabels(host, allowlist[i]);
      }
    }
  }

  // ---------------------------------------------------------------- registry

  /** Every adapter is filed under its own provider key. */
  predicate Keyed(adapters: map<string, ProviderAdapter>) {
    forall k | k in adapters :: adapters[k].provider == k
  }

  const GOOGLE_HOSTS := ["accounts.google.com", "oauth2.googleapis.com", "openidconnect.googleapis.com",
                         "www.googleapis.com"]
  const MICROSOFT_HOSTS := ["login.microsoftonline.com", "graph.microsoft.com", "outlook.office365.com"]

  const GMAIL_ADAPTER := ProviderAdapter("gmail",
    "https://accounts.google.com/o/oauth2/v2/auth", "https://oauth2.googleapis.com/token",
    "https://openidconnect.googleapis.com/v1/userinfo",
    "https://mail.google.com/ openid https://www.googleapis.com/auth/userinfo.email", true, GOOGLE_HOSTS)
  const GOOGLE_CALENDAR_ADAPTER := GMAIL_ADAPTER.(provider := "google_calendar",
    defaultScopes := "https://www.googleapis.com/auth/calendar openid https://www.googleapis.com/auth/userinfo.email")
  const OUTLOOK_ADAPTER := ProviderAdapter("outlook",
    "https://login.microsoftonline.com/common/oauth2/v2.0/authorize",
    "https://login.microsoftonline.com/common/oauth2/v2.0/token",
    "https://graph.microsoft.com/oidc/userinfo",
    "https://outlook.office365.com/SMTP.Send https://outlook.office365.com/IMAP.AccessAsUser.All openid email profile",
    true, MICROSOFT_HOSTS)
  const MICROSOFT_CALENDAR_ADAPTER := OUTLOOK_ADAPTER.(provider := "microsoft_calendar",
    defaultScopes := "https://graph.microsoft.com/Calendars.ReadWrite openid email profile")

  predicate IsBuiltin(adapter: ProviderAdapter) {
    || adapter == GMAIL_ADAPTER || adapter == OUTLOOK_ADAPTER
    || adapter == GOOGLE_CALENDAR_ADAPTER || adapter == MICROSOFT_CALENDAR_ADAPTER
  }

  lemma BuiltinsUsePkce(adapter: ProviderAdapter)
    requires IsBuiltin(adapter)
    ensures adapter.pkceS256
  {
  }

  class ProviderRegistry {
    var adapters: map<string, ProviderAdapter>

    predicate Valid()
      reads this
    {
      Keyed(adapters)
    }

    constructor ()
      ensures Valid() && adapters == map[]
    {
      adapters := map[];
    }

    constructor WithBuiltin()
      ensures Valid() && adapters.Keys == {"gmail", "outlook", "google_calendar", "microsoft_calendar"}
      ensures adapters["gmail"] == GMAIL_ADAPTER && adapters["outlook"] == OUTLOOK_ADAPTER
      ensures adapters["google_calendar"] == GOOGLE_CALENDAR_ADAPTER
      ensures adapters["microsoft_calendar"] == MICROSOFT_CALENDAR_ADAPTER
    {
      adapters := map[];
      new;
      Register(GMAIL_ADAPTER);
      Register(OUTLOOK_ADAPTER);
      Register(GOOGLE_CALENDAR_ADAPTER);
      Register(MICROSOFT_CALENDAR_ADAPTER);
    }

    method Register(adapter: ProviderAdapter)
      requires Valid()
      modifies this
      ensures Valid() && adapters == old(adapters)[adapter.provider := adapter]
    {
      adapters := adapters[adapter.provider := adapter];
    }
  }

  function Revalidate(lib: Libraries, adapters: map<string, ProviderAdapter>, e: ValidatedEndpoint):
    Result<(), InvalidEndpoint>
  {
    var text := lib.show(e.url);
    if e.providerKey !in adapters then Err(InvalidEndpoint(e.providerKey, e.key, text, NotRegistered))
    else
      var adapter := adapters[e.providerKey];
      match ValidateEndpoint(lib, adapter.provider, e.key, adapter.hostAllowlist, text)
      case Ok(_) => Ok(())
      case Err(invalid) => Err(invalid)
  }

  datatype ProviderEndpointOverride = ProviderEndpointOverride(authorize: Option<string>, token: Option<string>,
                                                               userinfo: Option<string>)

  datatype ValidatedEndpoints = ValidatedEndpoints(authorize: ValidatedEndpoint, token: ValidatedEndpoint,
                                                   userinfo: ValidatedEndpoint)

  function Pick(lib: Libraries, adapter: ProviderAdapter, key: EndpointKey, registryValue: string,
                override: Option<string>):
    Result<ValidatedEndpoint, InvalidEndpoint>
  {
    ValidateEndpoint(lib, adapter.provider, key, adapter.hostAllowlist,
                     if override.Some? then override.value else registryValue)
  }

  function Resolve(lib: Libraries, adapters: map<string, ProviderAdapter>, provider: string,
                   overrides: map<string, ProviderEndpointOverride>): Result<ValidatedEndpoints, InvalidEndpoint>
  {
    if provider !in adapters then Err(InvalidEndpoint(provider, Token, "", NotRegistered))
    else
      var adapter := adapters[provider];
      var o := if provider in overrides then overrides[provider] else ProviderEndpointOverride(None, None, None);
      match Pick(lib, adapter, Authorize, adapter.authorizeEndpoint, o.authorize)
      case Err(e) => Err(e)
      case Ok(authorize) =>
        match Pick(lib, adapter, Token, adapter.tokenEndpoint, o.token)
        case Err(e) => Err(e)
        case Ok(token) =>
          match Pick(lib, adapter, Userinfo, adapter.userinfoEndpoint, o.userinfo)
          case Err(e) => Err(e)
          case Ok(userinfo) => Ok(ValidatedEndpoints(authorize, token, userinfo))
  }

  /** The text an endpoint is resolved from: the deployment's, if it has one for this provider, else the adapter's. */
  predicate ComesFrom(overrides: map<string, ProviderEndpointOverride>, adapter: ProviderAdapter, provider: string,
                      key: EndpointKey, text: string) {
    match key
    case Authorize =>
      if provider in overrides && overrides[provider].authorize.Some?
      then text == overrides[provider].authorize.value else text == adapter.authorizeEndpoint
    case Token =>
      if provider in overrides && overrides[provider].token.Some?
      then text == overrides[provider].token.value else text == adapter.tokenEndpoint
    case Userinfo =>
      if provider in overrides && overrides[provider].userinfo.Some?
      then text == overrides[provider].userinfo.value else text == adapter.userinfoEndpoint
  }

  /** Each of the three endpoints is its own text, parsed and acceptable; a refusal names the first of them that is
      not, or the provider if there is no adapter for it. */
  lemma ResolvesExactly(lib: Libraries, adapters: map<string, ProviderAdapter>, provider: string,
                        overrides: map<string, ProviderEndpointOverride>, a: string, t: string, u: string)
    requires Keyed(adapters)
    requires provider in adapters ==>
      && ComesFrom(overrides, adapters[provider], provider, Authorize, a)
      && ComesFrom(overrides, adapters[provider], provider, Token, t)
      && ComesFrom(overrides, adapters[provider], provider, Userinfo, u)
    ensures var r := Resolve(lib, adapters, provider, overrides);
      if provider !in adapters then r.Err? && r.error.provider == provider && r.error.reason == NotRegistered
      else
        var hosts := adapters[provider].hostAllowlist;
        var (okA, okT, okU) := (Accepts(lib, hosts, a), Accepts(lib, hosts, t), Accepts(lib, hosts, u));
        && (r.Ok? <==> okA && okT && okU)
        && (r.Ok? ==>
              && r.value.authorize == ValidatedEndpoint(provider, Authorize, lib.parse(a).value)
              && r.value.token == ValidatedEndpoint(provider, Token, lib.parse(t).value)
              && r.value.userinfo == ValidatedEndpoint(provider, Userinfo, lib.parse(u).value))
        && (r.Err? ==>
              && r.error.provider == provider
              && (!okA ==> r.error.key == Authorize && r.error.url == a)
              && (okA && !okT ==> r.error.key == Token && r.error.url == t)
              && (okA && okT ==> r.error.key == Userinfo && r.error.url == u))
  {
    if provider in adapters {
      var hosts := adapters[provider].hostAllowlist;
      AcceptedExactly(lib, provider, Authorize, hosts, a);
      AcceptedExactly(lib, provider, Token, hosts, t);
      AcceptedExactly(lib, provider, Userinfo, hosts, u);
      RefusedNames(lib, provider, Authorize, hosts, a);
      RefusedNames(lib, provider, Token, hosts, t);
      RefusedNames(lib, provider, Userinfo, hosts, u);
    }
  }

  ghost predicate Accepts(lib: Libraries, allowlist: seq<string>, text: string) {
    lib.parse(text).Some? && Acceptable(lib, allowlist, lib.parse(text).value)
  }

  lemma RefusedNames(lib: Libraries, provider: string, key: EndpointKey, allowlist: seq<string>, text: string)
    ensures var r := ValidateEndpoint(lib, provider, key, allowlist, text);
      r.Err? ==> r.error.provider == provider && r.error.key == key && r.error.url == text
  {
  }

  lemma PickedRevalidates(lib: Libraries, adapters: map<string, ProviderAdapter>, adapter: ProviderAdapter,
                          key: EndpointKey, registryValue: string, override: Option<string>)
    requires Reparses(lib) && Pick(lib, adapter, key, registryValue, override).Ok?
    requires adapter.provider in adapters && adapters[adapter.provider] == adapter
    ensures Revalidate(lib, adapters, Pick(lib, adapter, key, registryValue, override).value) == Ok(())
  {
    var text := if override.Some? then override.value else registryValue;
    assert lib.parse(text).Some?;
  }

  /** Endpoints that resolved pass revalidation for ever: against every registry that has this
      provider's adapter, whatever else it holds. */
  lemma ResolvedRevalidates(lib: Libraries, adapters: map<string, ProviderAdapter>, provider: string,
                            overrides: map<string, ProviderEndpointOverride>, later: map<string, ProviderAdapter>)
    requires Reparses(lib) && Keyed(adapters) && Resolve(lib, adapters, provider, overrides).Ok?
    requires provider in later && later[provider] == adapters[provider]
    ensures var e := Resolve(lib, adapters, provider, overrides).value;
      && Revalidate(lib, later, e.authorize) == Ok(())
      && Revalidate(lib, later, e.token) == Ok(())
      && Revalidate(lib, later, e.userinfo) == Ok(())
  {
    var adapter := adapters[provider];
    var o := if provider in overrides then overrides[provider] else ProviderEndpointOverride(None, None, None);
    PickedRevalidates(lib, later, adapter, Authorize, adapter.authorizeEndpoint, o.authorize);
    PickedRevalidates(lib, later, adapter, Token, adapter.tokenEndpoint, o.token);
    PickedRevalidates(lib, later, adapter, Userinfo, adapter.userinfoEndpoint, o.userinfo);
  }

  predicate Covers(adapters: map<string, ProviderAdapter>, provider: string, e: ValidatedEndpoint) {
    e.url.host.Some? && provider in adapters && HostAllowed(e.url.host.value, adapters[provider].hostAllowlist)
  }

  lemma PickedDrifts(lib: Libraries, adapter: ProviderAdapter, key: EndpointKey, registryValue: string,
                     override: Option<string>, later: map<string, ProviderAdapter>)
    requires Reparses(lib) && Pick(lib, adapter, key, registryValue, override).Ok?
    ensures
      var e := Pick(lib, adapter, key, registryValue, override).value;
      Revalidate(lib, later, e).Ok? <==> Covers(later, adapter.provider, e)
  {
    var text := if override.Some? then override.value else registryValue;
    assert lib.parse(lib.show(lib.parse(text).value)) == lib.parse(text);
  }

  /** Against any other registry an endpoint that resolved passes exactly as long as that registry has the
      provider and its allowlist covers the endpoint's host: what is checked again is the registry at hand. */
  lemma DriftIsRefused(lib: Libraries, adapters: map<string, ProviderAdapter>, provider: string,
                       overrides: map<string, ProviderEndpointOverride>, later: map<string, ProviderAdapter>)
    requires Reparses(lib) && Keyed(adapters) && Resolve(lib, adapters, provider, overrides).Ok?
    ensures var e := Resolve(lib, adapters, provider, overrides).value;
      && (Revalidate(lib, later, e.authorize).Ok? <==> Covers(later, provider, e.authorize))
      && (Revalidate(lib, later, e.token).Ok? <==> Covers(later, provider, e.token))
      && (Revalidate(lib, later, e.userinfo).Ok? <==> Covers(later, provider, e.userinfo))
  {
    var adapter := adapters[provider];
    var o := if provider in overrides then overrides[provider] else ProviderEndpointOverride(None, None, None);
    PickedDrifts(lib, adapter, Authorize, adapter.authorizeEndpoint, o.authorize, later);
    PickedDrifts(lib, adapter, Token, adapter.tokenEndpoint, o.token, later);
    PickedDrifts(lib, adapter, Userinfo, adapter.userinfoEndpoint, o.userinfo, later);
  }
}
