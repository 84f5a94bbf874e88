/** The identity gauntlet of a completion: audience, nonce and e-mail address. */
module IdentityChecks {
  import opened Outcomes
  import opened EndpointGuard

  datatype IdentityClaims = IdentityClaims(
    email: Option<string>, emailVerified: Option<bool>, audience: Option<string>, nonce: Option<string>)

  /** The two claims read out of the id_token's payload. */
  datatype IdToken = IdToken(audience: Option<string>, nonce: Option<string>)

  predicate EqIgnoreCase(a: string, b: string) {
    ToLower(a) == ToLower(b)
  }

  /** The comparison is `eq_ignore_ascii_case`: letter by letter, ASCII case aside. */
  lemma EqIgnoreCaseExactly(a: string, b: string)
    ensures EqIgnoreCase(a, b) <==> SameText(a, b)
  {
    LowerCaseExactly(a, b);
  }

  /** Two readings of one claim: the identity's wins, disagreement is refused. */
  function MergeClaim(identity: Option<string>, token: Option<string>): Result<Option<string>, ()> {
    match (identity, token)
    case (Some(a), Some(b)) => if EqIgnoreCase(a, b) then Ok(Some(a)) else Err(())
    case (Some(a), None) => Ok(Some(a))
    case (None, b) => Ok(b)
  }

  function AudienceAndNonceHold(identity: IdentityClaims, token: Option<IdToken>, clientId: string, stateNonce: string):
    bool
  {
    match MergeClaim(identity.audience, if token.Some? then token.value.audience else None)
    case Err(_) => false
    case Ok(audience) =>
      match MergeClaim(identity.nonce, if token.Some? then token.value.nonce else None)
      case Err(_) => false
      case Ok(nonce) => audience.Some? && audience.value == clientId && nonce.Some? && nonce.value == stateNonce
  }

  function TrimLeft(s: string): string {
    if s != "" && IsWhite(s[0]) then TrimLeft(s[1..]) else s
  }

  function TrimRight(s: string): string {
    if s != "" && IsWhite(s[|s| - 1]) then TrimRight(s[..|s| - 1]) else s
  }

  function Trim(s: string): string {
    TrimRight(TrimLeft(s))
  }

  predicate EmailHolds(identity: IdentityClaims, accountRef: string, bypass: bool) {
    && identity.email.Some? && Trim(identity.email.value) != ""
    && identity.emailVerified != Some(false)
    && (EqIgnoreCase(Trim(identity.email.value), accountRef) || bypass)
  }

  predicate Names(claim: Option<string>, value: string) {
    claim.Some? && EqIgnoreCase(claim.value, value)
  }

  /** An accepted identity names this client and this authorization's nonce wherever it names any, and
      names each at least once; the identity's own reading, when there is one, to the letter. */
  lemma AcceptedNames(identity: IdentityClaims, token: Option<IdToken>, clientId: string, stateNonce: string)
    ensures AudienceAndNonceHold(identity, token, clientId, stateNonce) <==>
      && (|| identity.audience == Some(clientId)
          || (identity.audience.None? && token.Some? && token.value.audience == Some(clientId)))
      && (|| identity.nonce == Some(stateNonce)
          || (identity.nonce.None? && token.Some? && token.value.nonce == Some(stateNonce)))
      && (identity.audience.Some? && token.Some? && token.value.audience.Some? ==>
            Names(token.value.audience, clientId))
      && (identity.nonce.Some? && token.Some? && token.value.nonce.Some? ==> Names(token.value.nonce, stateNonce))
  {
  }

  /** `s` without the white space around it lies from `i` to `j`. */
  predicate Core(s: string, i: int, j: int) {
    0 <= i < j <= |s| && Blank(s[..i]) && Blank(s[j..]) && !IsWhite(s[i]) && !IsWhite(s[j - 1])
  }

  lemma BlankParts(a: string, b: string)
    ensures Blank(a + b) <==> Blank(a) && Blank(b)
  {
    assert forall k | 0 <= k < |a| :: (a + b)[k] == a[k];
    assert forall k | 0 <= k < |b| :: b[k] == (a + b)[|a| + k];
  }

  lemma {:induction false} TrimLeftDrops(a: string, s: string)
    requires Blank(a) && s != "" && !IsWhite(s[0])
    ensures TrimLeft(a + s) == s
  {
    if a == "" {
      assert a + s == s;
    } else {
      assert (a + s)[1..] == a[1..] + s;
      assert a == a[..1] + a[1..];
      BlankParts(a[..1], a[1..]);
      TrimLeftDrops(a[1..], s);
    }
  }

  lemma {:induction false} TrimRightDrops(s: string, b: string)
    requires Blank(b) && s != "" && !IsWhite(s[|s| - 1])
    ensures TrimRight(s + b) == s
  {
    if b == "" {
      assert s + b == s;
    } else {
      var n := |b| - 1;
      assert (s + b)[..|s + b| - 1] == s + b[..n];
      assert b == b[..n] + b[n..];
      BlankParts(b[..n], b[n..]);
      TrimRightDrops(s, b[..n]);
    }
  }

  lemma {:induction false} TrimLeftOfBlank(s: string)
    requires Blank(s)
    ensures TrimLeft(s) == ""
  {
    if s == "" {
    } else {
      assert s == s[..1] + s[1..];
      BlankParts(s[..1], s[1..]);
      TrimLeftOfBlank(s[1..]);
    }
  }

  lemma TrimOfCore(s: string, i: int, j: int)
    requires Core(s, i, j)
    ensures Trim(s) == s[i..j]
  {
    assert s == s[..i] + s[i..] && s[i..] == s[i..j] + s[j..];
    TrimLeftDrops(s[..i], s[i..]);
    TrimRightDrops(s[i..j], s[j..]);
  }

  lemma {:induction false} LeftEnd(s: string) returns (i: nat)
    requires !Blank(s)
    ensures i < |s| && Blank(s[..i]) && !IsWhite(s[i])
  {
    if !IsWhite(s[0]) {
      i := 0;
    } else {
      assert s == s[..1] + s[1..];
      BlankParts(s[..1], s[1..]);
      i := LeftEnd(s[1..]);
      assert s[..i + 1] == s[..1] + s[1..][..i];
      BlankParts(s[..1], s[1..][..i]);
      i := i + 1;
    }
  }

  lemma {:induction false} RightEnd(s: string) returns (j: nat)
    requires !Blank(s)
    ensures 0 < j <= |s| && Blank(s[j..]) && !IsWhite(s[j - 1])
  {
    var n := |s| - 1;
    if !IsWhite(s[n]) {
      j := |s|;
    } else {
      assert s == s[..n] + s[n..];
      BlankParts(s[..n], s[n..]);
      j := RightEnd(s[..n]);
      assert s[j..] == s[..n][j..] + s[n..];
      BlankParts(s[..n][j..], s[n..]);
    }
  }

  lemma CoreOf(s: string) returns (i: nat, j: nat)
    requires !Blank(s)
    ensures Core(s, i, j)
  {
    i := LeftEnd(s);
    j := RightEnd(s);
    assert forall k | j <= k < |s| :: s[k] == s[j..][k - j];
  }

  /** Trimming leaves nothing of blank text, and of any other exactly what lies between its outer letters. */
  lemma TrimExactly(s: string)
    ensures Trim(s) == "" <==> Blank(s)
    ensures !Blank(s) ==> exists i, j :: Core(s, i, j) && Trim(s) == s[i..j]
  {
    if Blank(s) {
      TrimLeftOfBlank(s);
    } else {
      var i, j := CoreOf(s);
      TrimOfCore(s, i, j);
    }
  }

  /** The accepted addresses: not reported unverified, and between any white space the account's own address,
      letter case aside, or any address at all under the bypass. */
  lemma AcceptedAddresses(identity: IdentityClaims, accountRef: string, bypass: bool)
    ensures EmailHolds(identity, accountRef, bypass) <==>
      && identity.email.Some? && identity.emailVerified != Some(false)
      && exists i, j ::
        Core(identity.email.value, i, j) && (bypass || SameText(identity.email.value[i..j], accountRef))
  {
    if identity.email.Some? {
      var email := identity.email.value;
      TrimExactly(email);
      forall i, j | Core(email, i, j)
        ensures Trim(email) == email[i..j]
        ensures EqIgnoreCase(email[i..j], accountRef) <==> SameText(email[i..j], accountRef)
      {
        TrimOfCore(email, i, j);
        EqIgnoreCaseExactly(email[i..j], accountRef);
      }
    }
  }

  /** An account's own address passes, for one that neither begins nor ends in white space. */
  lemma OwnAddressHolds(identity: IdentityClaims, accountRef: string)
    requires identity.email == Some(accountRef) && identity.emailVerified != Some(false)
    requires Core(accountRef, 0, |accountRef|)
    ensures EmailHolds(identity, accountRef, false)
  {
    TrimOfCore(accountRef, 0, |accountRef|);
    assert accountRef[0..|accountRef|] == accountRef;
  }
}
