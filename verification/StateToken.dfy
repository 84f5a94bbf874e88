/** The signed state of an authorization: `StateSigner::mint` and `StateSigner::verify`.

    The MAC and the JSON codec are libraries: any MAC function, and any codec that reads back what it
    wrote. */
module StateToken {
  import opened Outcomes
  import opened Base64Url
  import opened Strings

  datatype OAuthState = OAuthState(accountId: nat, provider: string, nonce: string, exp: int)

  datatype StateError = Malformed | MalformedPayload | MalformedSignature | Mismatch | NotABinding | ExpiredState

  datatype Libraries = Libraries(
    mac: (seq<Byte>, seq<Byte>) -> seq<Byte>,
    toJson: OAuthState -> seq<Byte>,
    fromJson: seq<Byte> -> Option<OAuthState>)

  ghost predicate ReadsBack(lib: Libraries) {
    forall s :: lib.fromJson(lib.toJson(s)) == Some(s)
  }

  function Token(payload: seq<Byte>, mac: seq<Byte>): string {
    Encode(payload) + "." + Encode(mac)
  }

  function Mint(lib: Libraries, key: seq<Byte>, state: OAuthState): string {
    var payload := lib.toJson(state);
    Token(payload, lib.mac(key, payload))
  }

  function Verify(lib: Libraries, key: seq<Byte>, token: string, now: int): Result<OAuthState, StateError> {
    match SplitOnce(token, '.')
    case None => Err(Malformed)
    case Some((payload64, mac64)) =>
      match Decode(payload64)
      case None => Err(MalformedPayload)
      case Some(payload) =>
        match Decode(mac64)
        case None => Err(MalformedSignature)
        case Some(presented) =>
          if presented != lib.mac(key, payload) then Err(Mismatch)
          else
            match lib.fromJson(payload)
            case None => Err(NotABinding)
            case Some(state) => if state.exp <= now then Err(ExpiredState) else Ok(state)
  }

  lemma SplitToken(payload: seq<Byte>, mac: seq<Byte>)
    ensures SplitOnce(Token(payload, mac), '.') == Some((Encode(payload), Encode(mac)))
  {
    EncodedLetters(payload);
    SplitAtFirst(Encode(payload), '.', Encode(mac));
  }

  /** A minted state verifies to itself before its expiry and is refused as expired from then on. */
  lemma MintedVerifies(lib: Libraries, key: seq<Byte>, state: OAuthState, now: int)
    requires ReadsBack(lib)
    ensures Verify(lib, key, Mint(lib, key, state), now) == if now < state.exp then Ok(state) else Err(ExpiredState)
  {
    var payload := lib.toJson(state);
    SplitToken(payload, lib.mac(key, payload));
    RoundTrip(payload);
    RoundTrip(lib.mac(key, payload));
  }

  /** `token` carries `payload` under its MAC for `key`. */
  predicate Signed(lib: Libraries, key: seq<Byte>, token: string, payload: seq<Byte>) {
    token == Token(payload, lib.mac(key, payload))
  }

  /** Exactly the well-signed tokens of unexpired bindings are accepted: one text per payload, no other
      spelling of it, nothing else whatever. */
  lemma AcceptedExactly(lib: Libraries, key: seq<Byte>, token: string, now: int, state: OAuthState)
    ensures Verify(lib, key, token, now) == Ok(state)
            <==> now < state.exp
                 && exists payload :: Signed(lib, key, token, payload) && lib.fromJson(payload) == Some(state)
  {
    if Verify(lib, key, token, now) == Ok(state) {
      var (payload64, mac64) := SplitOnce(token, '.').value;
      SplitParts(token, '.');
      var payload := Decode(payload64).value;
      Canonical(payload64, payload);
      Canonical(mac64, lib.mac(key, payload));
      assert Signed(lib, key, token, payload);
    }
    if payload :| Signed(lib, key, token, payload) && lib.fromJson(payload) == Some(state) {
      SplitToken(payload, lib.mac(key, payload));
      RoundTrip(payload);
      RoundTrip(lib.mac(key, payload));
    }
  }
}
