/** The signed state of the consent flow. The keyed hash is a parameter: any function of secret and
    message whose digests are ASCII without a dot, as hexadecimal is. */
module OAuthState {
  import opened Domain
  import opened Text
  import Uuid

  type Mac = (string, string) -> string

  // Uncaught is no state error: comparing digests raises a TypeError on a field that is not ASCII.
  datatype StateError = Malformed | BadSignature | Expired | FromTheFuture | Uncaught

  const STATE_TTL_SECONDS: int := 600

  function Dotted(a: string, b: string): string {
    a + ['.'] + b
  }

  function Payload(user: nat, nonce: string, issuedAt: int): string {
    Dotted(Dotted(Uuid.Print(user), nonce), PrintInt(issuedAt))
  }

  function Sign(mac: Mac, secret: string, user: nat, nonce: string, issuedAt: int): string {
    Dotted(Payload(user, nonce, issuedAt), mac(secret, Payload(user, nonce, issuedAt)))
  }

  /** The checks in the order of the code; `now` is the clock. */
  function Verify(mac: Mac, secret: string, state: string, now: real): Result<nat, StateError> {
    var parts := Split(state, '.');
    if |parts| != 4 then Err(Malformed)
    else if !Ascii(parts[3]) then Err(Uncaught)
    else if mac(secret, Dotted(Dotted(parts[0], parts[1]), parts[2])) != parts[3] then Err(BadSignature)
    else
      match ParseInt(parts[2])
      case None => Err(Malformed)
      case Some(issuedAt) =>
        if now - issuedAt as real > STATE_TTL_SECONDS as real then Err(Expired)
        else if issuedAt as real - now > STATE_TTL_SECONDS as real then Err(FromTheFuture)
        else
          match Uuid.Parse(parts[0])
          case None => Err(Malformed)
          case Some(user) => Ok(user)
  }

  predicate IsDigest(digest: string) {
    Free(digest, '.') && Ascii(digest)
  }

  lemma UuidIsFree(user: nat)
    ensures Free(Uuid.Print(user), '.')
  {
    Uuid.TextIsPlain(user);
  }

  lemma IntIsFree(i: int)
    ensures Free(PrintInt(i), '.')
  {
    NatRoundTrip(if i < 0 then -i else i);
  }

  /** The envelope splits into the user, the fields of the nonce, the time and the digest. */
  lemma {:induction false} EnvelopeFields(mac: Mac, secret: string, user: nat, nonce: string, issuedAt: int)
    requires Free(mac(secret, Payload(user, nonce, issuedAt)), '.')
    ensures Split(Sign(mac, secret, user, nonce, issuedAt), '.')
         == [Uuid.Print(user)] + Split(nonce, '.') + [PrintInt(issuedAt), mac(secret, Payload(user, nonce, issuedAt))]
  {
    var payload := Payload(user, nonce, issuedAt);
    UuidIsFree(user);
    IntIsFree(issuedAt);
    SplitNone(Uuid.Print(user), '.');
    SplitNone(PrintInt(issuedAt), '.');
    SplitNone(mac(secret, payload), '.');
    SplitConcat(Uuid.Print(user), nonce, '.');
    SplitConcat(Dotted(Uuid.Print(user), nonce), PrintInt(issuedAt), '.');
    SplitConcat(payload, mac(secret, payload), '.');
  }

  /** A signed state verifies to its user exactly when its nonce holds no dot and the clock is within
      ten minutes of the time of signing, on either side. */
  lemma {:induction false} SignedStateVerifiesIff(
    mac: Mac, secret: string, user: nat, nonce: string, issuedAt: int, now: real)
    requires Uuid.IsUuid(user) && IsDigest(mac(secret, Payload(user, nonce, issuedAt)))
    ensures Verify(mac, secret, Sign(mac, secret, user, nonce, issuedAt), now) == Ok(user)
      <==> Free(nonce, '.') && -600.0 <= now - issuedAt as real <= 600.0
    ensures Verify(mac, secret, Sign(mac, secret, user, nonce, issuedAt), now) ==
      if !Free(nonce, '.') then Err(Malformed)
      else if now - issuedAt as real > 600.0 then Err(Expired)
      else if issuedAt as real - now > 600.0 then Err(FromTheFuture)
      else Ok(user)
  {
    EnvelopeFields(mac, secret, user, nonce, issuedAt);
    OneFieldIffFree(nonce, '.');
    if Free(nonce, '.') {
      SplitNone(nonce, '.');
      IntRoundTrip(issuedAt);
      Uuid.RoundTrip(user);
    }
  }

  /** Three fields under any other digest are refused, whatever they say; but if that digest is not ASCII
      the refusal is an exception of the wrong kind. */
  lemma {:induction false} WrongDigestFails(
    mac: Mac, secret: string, payload: string, digest: string, now: real)
    requires |Split(payload, '.')| == 3 && Free(digest, '.')
    requires digest != mac(secret, payload) && Ascii(mac(secret, payload))
    ensures Verify(mac, secret, Dotted(payload, digest), now) == Err(if Ascii(digest) then BadSignature else Uncaught)
  {
    var parts := Split(payload, '.');
    SplitConcat(payload, digest, '.');
    SplitNone(digest, '.');
    JoinSplit(payload, '.');
    JoinOfThree(parts);
  }

  lemma JoinOfThree(parts: seq<string>)
    requires |parts| == 3
    ensures Join(parts, '.') == Dotted(Dotted(parts[0], parts[1]), parts[2])
  {
    assert Join(parts[2..], '.') == parts[2];
    assert parts[1..][1..] == parts[2..];
    assert Join(parts[1..], '.') == parts[1] + ['.'] + parts[2];
  }

  /** Whatever string arrives: it is accepted only if it ends in the digest of what stands before its
      last dot, so nobody who cannot compute the keyed hash can change the user or the time. */
  lemma {:induction false} AcceptedStateIsSigned(mac: Mac, secret: string, state: string, now: real)
    requires Verify(mac, secret, state, now).Ok?
    ensures exists payload :: state == Dotted(payload, mac(secret, payload)) && |Split(payload, '.')| == 3
  {
    var parts := Split(state, '.');
    JoinSplit(state, '.');
    var payload := Dotted(Dotted(parts[0], parts[1]), parts[2]);
    JoinOfFour(parts);
    assert state == Dotted(payload, mac(secret, payload));
    SplitConcat(parts[0], parts[1], '.');
    SplitConcat(Dotted(parts[0], parts[1]), parts[2], '.');
    SplitNone(parts[0], '.');
    SplitNone(parts[1], '.');
    SplitNone(parts[2], '.');
  }

  lemma JoinOfFour(parts: seq<string>)
    requires |parts| == 4
    ensures Join(parts, '.') == Dotted(Dotted(Dotted(parts[0], parts[1]), parts[2]), parts[3])
  {
    assert Join(parts[3..], '.') == parts[3];
    assert parts[2..][1..] == parts[3..] && parts[1..][1..] == parts[2..];
    assert Join(parts[2..], '.') == parts[2] + ['.'] + parts[3];
    assert Join(parts[1..], '.') == parts[1] + ['.'] + (parts[2] + ['.'] + parts[3]);
  }
}
