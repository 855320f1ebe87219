/**
 The tables of the device-session service.

 Identifiers, tokens and codes are numbers: a table never stores a token but its digest,
 and the model uses one number for both, so equal digests mean equal tokens. The unique
 key (family, generation) indexes access sessions, refresh credentials and rotations; the
 device, user and server columns that a composite foreign key forces to agree with the
 family are read from the family.
 */
module DeviceTables {
  import opened Wrappers
  import opened Clock

  type Id = nat

  const MAX_ACTIVE_GRANTS := 500
  const EXPIRED_RETENTION_SECONDS := 3600

  datatype Policy = Policy(
    server: Id,
    authorizationTtl: int,
    accessTtl: int,
    slidingTtl: int,
    absoluteTtl: int,
    idempotencyTtl: int,
    pollInterval: int)
  {
    predicate Valid() {
      && authorizationTtl > 0
      && accessTtl > 0
      && slidingTtl > 0
      && absoluteTtl >= slidingTtl
      && idempotencyTtl > 0
      && 2 <= pollInterval <= 15
    }
  }

  /** The PKCE challenge of a verifier, RFC 7636 section 4.6: the digest is taken as injective. */
  datatype Challenge = S256(verifier: Id)

  /** What a successful exchange or rotation hands to the device; instants are on the fine scale. */
  datatype Credentials = Credentials(
    accessToken: Id,
    refreshToken: Id,
    device: Id,
    family: Id,
    user: Id,
    generation: int,
    version: int,
    issuedAt: int,
    accessExpiresAt: int,
    refreshExpiresAt: int,
    absoluteExpiresAt: int,
    server: Id)

  /** The authenticated data of a stored result; module AadEncoding shows that its bytes determine it. */
  datatype Aad =
    | RotationAad(family: Id, device: Id, server: Id, generation: int, transaction: Id, sourceToken: Id)
    | ExchangeAad(authorization: Id, server: Id, transaction: Id, deviceCode: Id)

  datatype Ciphertext =
    | Blank
    | Sealed(key: Id, aad: Aad, plaintext: Credentials)

  /** Decryption succeeds exactly under the key and authenticated data of the encryption. */
  function Open(key: Id, c: Ciphertext, aad: Aad): Option<Credentials> {
    if c.Sealed? && c.key == key && c.aad == aad then Some(c.plaintext) else None
  }

  datatype GrantStatus = Pending | Approved | Denied | Expired | Consumed

  datatype Grant = Grant(
    deviceCode: Id,
    userCode: Id,
    challenge: Challenge,
    server: Id,
    installation: Id,
    status: GrantStatus,
    approvedUser: Option<Id>,
    transaction: Option<Id>,
    result: Ciphertext,
    resultExpiresAt: Option<int>,
    interval: int,
    nextPollAt: int,
    expiresAt: int,
    updatedAt: int)
  {
    predicate Active() { status == Pending || status == Approved }
  }

  datatype Device = Device(user: Id, server: Id, installation: Id, active: bool, version: int)

  datatype Family = Family(
    authorization: Id,
    device: Id,
    user: Id,
    server: Id,
    active: bool,
    version: int,
    slidingExpiresAt: int,
    absoluteExpiresAt: int)

  datatype Slot = Slot(family: Id, generation: int)

  datatype SessionStatus = SessionActive | SessionRevoked | SessionExpired
  datatype Access = Access(id: Id, token: Id, status: SessionStatus, version: int, expiresAt: int)

  datatype CredentialStatus = RefreshActive | RefreshRotated | RefreshRevoked | RefreshExpired
  datatype Refresh = Refresh(token: Id, status: CredentialStatus, expiresAt: int)

  datatype RotationStatus = Completed | FamilyRevoked
  datatype Rotation = Rotation(transaction: Id, status: RotationStatus, result: Ciphertext, resultExpiresAt: int)

  /** `users` tells for each account whether its status is active. */
  datatype Store = Store(
    users: map<Id, bool>,
    grants: map<Id, Grant>,
    devices: map<Id, Device>,
    families: map<Id, Family>,
    accesses: map<Slot, Access>,
    refreshes: map<Slot, Refresh>,
    rotations: map<Slot, Rotation>)

  const EMPTY := Store(map[], map[], map[], map[], map[], map[], map[])

  datatype Error =
    | InvalidRequest
    | InvalidDeviceCode
    | InvalidUserCode
    | InvalidCodeVerifier
    | AuthorizationPending(retryAfter: int)
    | SlowDown(retryAfter: int)
    | AuthorizationDenied
    | AuthorizationExpired
    | AuthorizationConsumed
    | UserInactive
    | InvalidAccessToken
    | AccessExpired
    | DeviceRevoked
    | FamilyIsRevoked
    | InvalidRefreshToken
    | RefreshHasExpired
    | RefreshReplay
    | RotationRecoveryFailed
    | ExchangeTransactionMismatch
    | IdempotencyExpired
    | InvalidState
    | StorageFailure
    | CryptoFailure

  /** Who an access token speaks for, read from the row it was found in. */
  datatype Identity = Identity(
    accessId: Id,
    user: Id,
    device: Id,
    family: Id,
    generation: int,
    version: int,
    expiresAt: int,
    server: Id)

  datatype Outcome =
    | Started(authorization: Id, deviceCode: Id, userCode: Id, expiresAt: int)
    | Done
    | Reviewed(authorization: Id)
    | Polled(status: GrantStatus)
    | Issued(credentials: Credentials)
    | Authenticated(identity: Identity)
    | Swept
    | Failed(error: Error)

  /** Every result commits its transaction except the three that report an internal fault. */
  predicate ShouldCommit(r: Outcome) {
    !(r.Failed? && (r.error.StorageFailure? || r.error.CryptoFailure? || r.error.InvalidState?))
  }

  function Finish(before: Store, after: Store, r: Outcome): (Store, Outcome) {
    (if ShouldCommit(r) then after else before, r)
  }

  // Look-ups by a unique column.

  ghost function SlotOfRefresh(t: map<Slot, Refresh>, token: Id): (r: Option<Slot>)
    ensures r.Some? ==> r.value in t && t[r.value].token == token
    ensures r.None? ==> forall k :: k in t ==> t[k].token != token
  {
    if exists k :: k in t && t[k].token == token then
      var k :| k in t && t[k].token == token; Some(k)
    else None
  }

  ghost function SlotOfAccess(t: map<Slot, Access>, token: Id): (r: Option<Slot>)
    ensures r.Some? ==> r.value in t && t[r.value].token == token
    ensures r.None? ==> forall k :: k in t ==> t[k].token != token
  {
    if exists k :: k in t && t[k].token == token then
      var k :| k in t && t[k].token == token; Some(k)
    else None
  }

  ghost function SlotOfAccessId(t: map<Slot, Access>, id: Id): (r: Option<Slot>)
    ensures r.Some? ==> r.value in t && t[r.value].id == id
    ensures r.None? ==> forall k :: k in t ==> t[k].id != id
  {
    if exists k :: k in t && t[k].id == id then
      var k :| k in t && t[k].id == id; Some(k)
    else None
  }

  ghost function GrantOfCode(t: map<Id, Grant>, code: Id): (r: Option<Id>)
    ensures r.Some? ==> r.value in t && t[r.value].deviceCode == code
    ensures r.None? ==> forall k :: k in t ==> t[k].deviceCode != code
  {
    if exists k :: k in t && t[k].deviceCode == code then
      var k :| k in t && t[k].deviceCode == code; Some(k)
    else None
  }

  ghost function GrantOfUserCode(t: map<Id, Grant>, code: Id): (r: Option<Id>)
    ensures r.Some? ==> r.value in t && t[r.value].userCode == code
    ensures r.None? ==> forall k :: k in t ==> t[k].userCode != code
  {
    if exists k :: k in t && t[k].userCode == code then
      var k :| k in t && t[k].userCode == code; Some(k)
    else None
  }

  ghost function DeviceOf(t: map<Id, Device>, user: Id, server: Id, installation: Id): (r: Option<Id>)
    ensures r.Some? ==> r.value in t && t[r.value].user == user && t[r.value].server == server && t[r.value].installation == installation
    ensures r.None? ==> forall d :: d in t ==> !(t[d].user == user && t[d].server == server && t[d].installation == installation)
  {
    if exists d :: d in t && t[d].user == user && t[d].server == server && t[d].installation == installation then
      var d :| d in t && t[d].user == user && t[d].server == server && t[d].installation == installation; Some(d)
    else None
  }
}
