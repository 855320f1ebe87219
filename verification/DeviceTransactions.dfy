/**
 What each committed transaction of the device-session service does to the tables.

 A transaction takes the store it began with and the clock and gives the store it leaves
 and its outcome. Random draws are arguments: a draw that repeats a stored unique value
 violates a UNIQUE constraint and ends as a storage failure.
 */
module DeviceTransactions {
  import opened Wrappers
  import opened Clock
  import opened DeviceTables
  import PollGate

  datatype GrantDraw = GrantDraw(id: Id, deviceCode: Id, userCode: Id)
  datatype StartRequest = StartRequest(challenge: Challenge, installation: Id)
  datatype ExchangeRequest = ExchangeRequest(deviceCode: Id, verifier: Id, transaction: Id)
  datatype RotateRequest = RotateRequest(token: Id, generation: int, transaction: Id, device: Id, server: Id)

  /** The identifiers and tokens one issue may need. */
  datatype Draw = Draw(device: Id, family: Id, accessId: Id, accessToken: Id, refreshToken: Id)

  // Starting an authorization.

  function ExpireOverdue(grants: map<Id, Grant>, server: Id, now: int): map<Id, Grant> {
    map id | id in grants ::
      if grants[id].server == server && grants[id].Active() && grants[id].expiresAt <= Seconds(now)
      then grants[id].(status := Expired, updatedAt := Seconds(now))
      else grants[id]
  }

  predicate HasFamily(families: map<Id, Family>, grant: Id) {
    exists f :: f in families && families[f].authorization == grant
  }

  function DropRetained(grants: map<Id, Grant>, families: map<Id, Family>, server: Id, now: int): map<Id, Grant> {
    map id | id in grants
      && !(grants[id].server == server && grants[id].status == Expired
           && grants[id].updatedAt <= Seconds(now) - EXPIRED_RETENTION_SECONDS && !HasFamily(families, id))
      :: grants[id]
  }

  function ActiveGrants(grants: map<Id, Grant>, server: Id): set<Id> {
    set id | id in grants && grants[id].server == server && grants[id].Active()
  }

  predicate GrantCollides(grants: map<Id, Grant>, d: GrantDraw) {
    d.id in grants || exists id :: id in grants && (grants[id].deviceCode == d.deviceCode || grants[id].userCode == d.userCode)
  }

  /** The first of at most five draws that repeats no stored identifier or code. */
  function FirstFree(grants: map<Id, Grant>, draws: seq<GrantDraw>, attempt: nat): Option<GrantDraw>
    requires attempt <= |draws|
    decreases |draws| - attempt
  {
    if attempt == |draws| || attempt == 5 then None
    else if GrantCollides(grants, draws[attempt]) then FirstFree(grants, draws, attempt + 1)
    else Some(draws[attempt])
  }

  function NewGrant(p: Policy, q: StartRequest, d: GrantDraw, now: int): Grant {
    Grant(d.deviceCode, d.userCode, q.challenge, p.server, q.installation, Pending, None, None, Blank, None,
          p.pollInterval, Seconds(now), Seconds(now + Span(p.authorizationTtl)), Seconds(now))
  }

  ghost function Start(s: Store, p: Policy, q: StartRequest, draws: seq<GrantDraw>, now: int): (Store, Outcome) {
    if !p.Valid() then (s, Failed(InvalidRequest)) else
    var ready := DropRetained(ExpireOverdue(s.grants, p.server, now), s.families, p.server, now);
    if |ActiveGrants(ready, p.server)| >= MAX_ACTIVE_GRANTS then
      (s.(grants := ready), Failed(SlowDown(60)))
    else
      match FirstFree(ready, draws, 0)
      case None => (s, Failed(InvalidState))
      case Some(d) =>
        (s.(grants := ready[d.id := NewGrant(p, q, d, now)]),
         Started(d.id, d.deviceCode, d.userCode, now + Span(p.authorizationTtl)))
  }

  // Review and decision.

  /** The first access of a review: an overdue pending grant expires. */
  ghost function ExpireByCode(s: Store, userCode: Id, server: Id, now: int): Store {
    match GrantOfUserCode(s.grants, userCode)
    case None => s
    case Some(id) =>
      var g := s.grants[id];
      if g.server == server && g.status == Pending && g.expiresAt <= Seconds(now)
      then s.(grants := s.grants[id := g.(status := Expired, updatedAt := Seconds(now))]) else s
  }

  /** The second access: what the reviewing user is shown. */
  ghost function Review(s: Store, userCode: Id, server: Id): Outcome {
    match GrantOfUserCode(s.grants, userCode)
    case None => Failed(InvalidUserCode)
    case Some(id) =>
      if s.grants[id].server != server then Failed(InvalidUserCode)
      else
        match s.grants[id].status
        case Pending => Reviewed(id)
        case Approved => Failed(AuthorizationConsumed)
        case Consumed => Failed(AuthorizationConsumed)
        case Denied => Failed(AuthorizationDenied)
        case Expired => Failed(AuthorizationExpired)
  }

  predicate UserActive(s: Store, user: Id) {
    user in s.users && s.users[user]
  }

  /** Approval by a user, or denial when `approver` is absent. */
  function Decide(s: Store, id: Id, approver: Option<Id>, now: int): (Store, Outcome) {
    if approver.Some? && !UserActive(s, approver.value) then (s, Failed(UserInactive))
    else if id !in s.grants then (s, Failed(InvalidUserCode))
    else
      var g := s.grants[id];
      if g.status == Pending && g.expiresAt > Seconds(now) then
        var status := if approver.Some? then Approved else Denied;
        (s.(grants := s.grants[id := g.(status := status, approvedUser := approver, updatedAt := Seconds(now))]), Done)
      else if g.status == Pending && Instant(g.expiresAt) <= now then
        (s.(grants := s.grants[id := g.(status := Expired, updatedAt := Seconds(now))]), Failed(AuthorizationExpired))
      else
        match g.status
        case Approved => (s, Failed(AuthorizationConsumed))
        case Consumed => (s, Failed(AuthorizationConsumed))
        case Denied => (s, Failed(AuthorizationDenied))
        case Expired => (s, Failed(AuthorizationExpired))
        case Pending => (s, Failed(InvalidState))
  }

  // Polling.

  function ExpireGrant(s: Store, id: Id, now: int): Store
    requires id in s.grants
  {
    if s.grants[id].Active()
    then s.(grants := s.grants[id := s.grants[id].(status := Expired, updatedAt := Seconds(now))])
    else s
  }

  /** The store after the poll gate of a grant has been consulted. */
  function PassGate(s: Store, id: Id, now: int): (Store, PollGate.Verdict)
    requires id in s.grants
  {
    var g := s.grants[id];
    var (verdict, gate) := PollGate.Check(g.nextPollAt, g.interval, now);
    (if verdict.SwapLost? then s
     else s.(grants := s.grants[id := g.(nextPollAt := gate, updatedAt := Seconds(now))]), verdict)
  }

  ghost function Poll(s: Store, deviceCode: Id, server: Id, now: int): (Store, Outcome) {
    match GrantOfCode(s.grants, deviceCode)
    case None => (s, Failed(InvalidDeviceCode))
    case Some(id) =>
      var g := s.grants[id];
      if g.server != server then (s, Failed(InvalidDeviceCode))
      else if Instant(g.expiresAt) <= now && g.Active() then (ExpireGrant(s, id, now), Failed(AuthorizationExpired))
      else if g.Active() then
        var (t, verdict) := PassGate(s, id, now);
        (t, if verdict.Admitted? then Polled(g.status) else Failed(SlowDown(verdict.retryAfter)))
      else (s, Polled(g.status))
  }

  // Exchanging the device code for the first credentials.

  ghost function Exchange(s: Store, key: Id, p: Policy, q: ExchangeRequest, draw: Draw, now: int): (Store, Outcome) {
    if !p.Valid() then (s, Failed(InvalidRequest)) else
    match GrantOfCode(s.grants, q.deviceCode)
    case None => (s, Failed(InvalidDeviceCode))
    case Some(id) =>
      var g := s.grants[id];
      if g.server != p.server then (s, Failed(InvalidDeviceCode))
      else if g.challenge != S256(q.verifier) then (s, Failed(InvalidCodeVerifier))
      else if g.status == Consumed then (s, RecoverExchange(g, id, key, p, q, now))
      else ExchangeOpen(s, id, key, p, q, draw, now)
  }

  /** The exchange of a grant that is not consumed yet. */
  ghost function ExchangeOpen(s: Store, id: Id, key: Id, p: Policy, q: ExchangeRequest, draw: Draw, now: int): (Store, Outcome)
    requires id in s.grants
  {
    var g := s.grants[id];
    if Instant(g.expiresAt) <= now then (ExpireGrant(s, id, now), Failed(AuthorizationExpired))
    else if g.status == Denied then (s, Failed(AuthorizationDenied))
    else if g.status == Expired then (s, Failed(AuthorizationExpired))
    else
      var (t, verdict) := PassGate(s, id, now);
      if !verdict.Admitted? then (t, Failed(SlowDown(verdict.retryAfter)))
      else if g.status == Pending then (t, Failed(AuthorizationPending(g.interval)))
      else IssueFirst(t, id, key, p, q, draw, now)
  }

  function RecoverExchange(g: Grant, id: Id, key: Id, p: Policy, q: ExchangeRequest, now: int): Outcome {
    if g.transaction != Some(q.transaction) then Failed(ExchangeTransactionMismatch)
    else if g.resultExpiresAt.None? then Failed(InvalidState)
    else if g.result.Blank? || Instant(g.resultExpiresAt.value) <= now then Failed(IdempotencyExpired)
    else
      match Open(key, g.result, ExchangeAad(id, p.server, q.transaction, q.deviceCode))
      case None => Failed(CryptoFailure)
      case Some(c) => Issued(c)
  }

  ghost function IssueFirst(s: Store, id: Id, key: Id, p: Policy, q: ExchangeRequest, draw: Draw, now: int): (Store, Outcome)
    requires id in s.grants
  {
    var g := s.grants[id];
    if g.approvedUser.None? then (s, Failed(InvalidState))
    else if !UserActive(s, g.approvedUser.value) then (s, Failed(UserInactive))
    else
      var user := g.approvedUser.value;
      var known := DeviceOf(s.devices, user, p.server, g.installation);
      if known.Some? && !s.devices[known.value].active then (s, Failed(InvalidState))
      else if known.None? && draw.device in s.devices then (s, Failed(StorageFailure))
      else
        var device := if known.Some? then known.value else draw.device;
        var devices := if known.Some? then s.devices else s.devices[device := Device(user, p.server, g.installation, true, 1)];
        if FirstCollides(s, id, q.transaction, draw) then (s, Failed(StorageFailure))
        else
          var c := FirstCredentials(p, device, devices[device].version, user, draw, now);
          (s.(devices := devices,
              families := s.families[draw.family := NewFamily(p, id, device, user, now)],
              accesses := s.accesses[Slot(draw.family, 0) :=
                Access(draw.accessId, draw.accessToken, SessionActive, c.version, Seconds(c.accessExpiresAt))],
              refreshes := s.refreshes[Slot(draw.family, 0) :=
                Refresh(draw.refreshToken, RefreshActive, Seconds(c.refreshExpiresAt))],
              grants := s.grants[id := g.(
                status := Consumed,
                transaction := Some(q.transaction),
                result := Sealed(key, ExchangeAad(id, p.server, q.transaction, q.deviceCode), c),
                resultExpiresAt := Some(Seconds(now + Span(p.idempotencyTtl))),
                updatedAt := Seconds(now))]),
           Issued(c))
  }

  function NewFamily(p: Policy, grant: Id, device: Id, user: Id, now: int): Family {
    Family(grant, device, user, p.server, true, 1, Seconds(now + Span(p.slidingTtl)), Seconds(now + Span(p.absoluteTtl)))
  }

  function FirstCredentials(p: Policy, device: Id, version: int, user: Id, draw: Draw, now: int): Credentials {
    Credentials(draw.accessToken, draw.refreshToken, device, draw.family, user, 0, version, now,
                now + Span(p.accessTtl), now + Span(p.slidingTtl), now + Span(p.absoluteTtl), p.server)
  }

  /** A unique column of the rows that a first issue inserts or updates is already taken. */
  predicate FirstCollides(s: Store, id: Id, transaction: Id, draw: Draw) {
    || draw.family in s.families
    || HasFamily(s.families, id)
    || SlotCollides(s, Slot(draw.family, 0), draw)
    || exists other :: other in s.grants && other != id && s.grants[other].transaction == Some(transaction)
  }

  predicate SlotCollides(s: Store, k: Slot, draw: Draw) {
    || k in s.accesses
    || k in s.refreshes
    || (exists a :: a in s.accesses && (s.accesses[a].id == draw.accessId || s.accesses[a].token == draw.accessToken))
    || (exists r :: r in s.refreshes && s.refreshes[r].token == draw.refreshToken)
  }

  // Rotating a refresh token.

  ghost function Rotate(s: Store, key: Id, p: Policy, q: RotateRequest, draw: Draw, now: int): (Store, Outcome) {
    if !p.Valid() then (s, Failed(InvalidRequest))
    else if q.generation < 0 || q.server != p.server then (s, Failed(InvalidRefreshToken))
    else
      match SlotOfRefresh(s.refreshes, q.token)
      case None => (s, Failed(InvalidRefreshToken))
      case Some(k) =>
        match RotateRefusal(s, k, q)
        case Some(e) => (s, Failed(e))
        case None =>
          if k in s.rotations then RecoverRotation(s, k, key, q, now)
          else MintNext(s, k, key, p, q, draw, now)
  }

  /** The row joins: family, device and user all exist. */
  predicate Joined(s: Store, k: Slot) {
    k.family in s.families && s.families[k.family].device in s.devices && s.families[k.family].user in s.users
  }

  function RotateRefusal(s: Store, k: Slot, q: RotateRequest): Option<Error> {
    if !Joined(s, k) then Some(InvalidRefreshToken) else
    var f := s.families[k.family];
    var d := s.devices[f.device];
    if f.device != q.device || f.server != q.server || k.generation != q.generation then Some(InvalidRefreshToken)
    else if !s.users[f.user] then Some(UserInactive)
    else if !d.active then Some(DeviceRevoked)
    else if !f.active then Some(FamilyIsRevoked)
    else if f.version != d.version then Some(FamilyIsRevoked)
    else None
  }

  function AadOf(s: Store, k: Slot, transaction: Id, token: Id): Aad
    requires k.family in s.families
  {
    var f := s.families[k.family];
    RotationAad(k.family, f.device, f.server, k.generation, transaction, token)
  }

  /** Revoking a family: its row, its active access sessions, its active and rotated refresh credentials. */
  function RevokeRows(s: Store, f: Id): Store
    requires f in s.families
  {
    s.(families := s.families[f := s.families[f].(active := false, version := s.families[f].version + 1)],
       accesses := map k | k in s.accesses ::
         if k.family == f && s.accesses[k].status == SessionActive
         then s.accesses[k].(status := SessionRevoked) else s.accesses[k],
       refreshes := map k | k in s.refreshes ::
         if k.family == f && (s.refreshes[k].status == RefreshActive || s.refreshes[k].status == RefreshRotated)
         then s.refreshes[k].(status := RefreshRevoked) else s.refreshes[k])
  }

  function CondemnRotation(s: Store, k: Slot, result: Ciphertext): Store
    requires k in s.rotations && k.family in s.families
  {
    var t := RevokeRows(s, k.family);
    t.(rotations := s.rotations[k := s.rotations[k].(status := FamilyRevoked, result := result)])
  }

  function RecoverRotation(s: Store, k: Slot, key: Id, q: RotateRequest, now: int): (Store, Outcome)
    requires k in s.rotations && k.family in s.families
  {
    var rotation := s.rotations[k];
    if rotation.transaction != q.transaction then
      (CondemnRotation(s, k, rotation.result), Failed(RefreshReplay))
    else if Instant(rotation.resultExpiresAt) <= now then
      (CondemnRotation(s, k, Blank), Failed(RotationRecoveryFailed))
    else
      match Open(key, rotation.result, AadOf(s, k, q.transaction, q.token))
      case Some(c) => (s, Issued(c))
      case None => (CondemnRotation(s, k, rotation.result), Failed(RotationRecoveryFailed))
  }

  predicate TransactionUsed(rotations: map<Slot, Rotation>, transaction: Id) {
    exists k :: k in rotations && rotations[k].transaction == transaction
  }

  function Next(k: Slot): Slot {
    Slot(k.family, k.generation + 1)
  }

  function Earlier(a: int, b: int): int {
    if a <= b then a else b
  }

  function NextCredentials(s: Store, k: Slot, p: Policy, draw: Draw, now: int): Credentials
    requires k.family in s.families && s.families[k.family].device in s.devices
  {
    var f := s.families[k.family];
    Credentials(draw.accessToken, draw.refreshToken, f.device, k.family, f.user, k.generation + 1,
                s.devices[f.device].version, now, now + Span(p.accessTtl),
                Earlier(now + Span(p.slidingTtl), Instant(f.absoluteExpiresAt)),
                Instant(f.absoluteExpiresAt), p.server)
  }

  function MintNext(s: Store, k: Slot, key: Id, p: Policy, q: RotateRequest, draw: Draw, now: int): (Store, Outcome)
    requires k in s.refreshes && Joined(s, k)
  {
    var f := s.families[k.family];
    var r := s.refreshes[k];
    if r.status != RefreshActive then (s, Failed(InvalidRefreshToken))
    else if Instant(r.expiresAt) <= now || Instant(f.absoluteExpiresAt) <= now then
      (s.(refreshes := s.refreshes[k := r.(status := RefreshExpired)]), Failed(RefreshHasExpired))
    else if TransactionUsed(s.rotations, q.transaction) then (s, Failed(InvalidRequest))
    else if SlotCollides(s, Next(k), draw) then (s, Failed(StorageFailure))
    else
      var c := NextCredentials(s, k, p, draw, now);
      (Minted(s, k, key, p, q, c, draw.accessId, now), Issued(c))
  }

  function Minted(s: Store, k: Slot, key: Id, p: Policy, q: RotateRequest, c: Credentials, accessId: Id, now: int): Store
    requires k in s.refreshes && k.family in s.families
  {
    s.(families := s.families[k.family := s.families[k.family].(slidingExpiresAt := Seconds(c.refreshExpiresAt))],
       accesses := (map a | a in s.accesses ::
         if a == k && s.accesses[a].status == SessionActive
         then s.accesses[a].(status := SessionRevoked) else s.accesses[a])
         [Next(k) := Access(accessId, c.accessToken, SessionActive, c.version, Seconds(c.accessExpiresAt))],
       refreshes := s.refreshes[k := s.refreshes[k].(status := RefreshRotated)]
         [Next(k) := Refresh(c.refreshToken, RefreshActive, Seconds(c.refreshExpiresAt))],
       rotations := s.rotations[k := Rotation(q.transaction, Completed,
         Sealed(key, AadOf(s, k, q.transaction, q.token), c), Seconds(now + Span(p.idempotencyTtl)))])
  }

  // Using and revoking.

  ghost function Authenticate(s: Store, token: Id, server: Id, now: int): (Store, Outcome) {
    match SlotOfAccess(s.accesses, token)
    case None => (s, Failed(InvalidAccessToken))
    case Some(k) =>
      if !Joined(s, k) || s.families[k.family].server != server then (s, Failed(InvalidAccessToken)) else
      var f := s.families[k.family];
      var d := s.devices[f.device];
      var a := s.accesses[k];
      if !s.users[f.user] then (s, Failed(UserInactive))
      else if !d.active then (s, Failed(DeviceRevoked))
      else if !f.active then (s, Failed(FamilyIsRevoked))
      else if a.status != SessionActive then (s, Failed(InvalidAccessToken))
      else if Instant(a.expiresAt) <= now then
        (s.(accesses := s.accesses[k := a.(status := SessionExpired)]), Failed(AccessExpired))
      else if a.version != d.version then (s, Failed(InvalidAccessToken))
      else (s, Authenticated(Identity(a.id, f.user, f.device, k.family, k.generation, a.version, Instant(a.expiresAt), f.server)))
  }

  /** The second look at a lease taken from an authenticated access: reads only. */
  ghost function Revalidate(s: Store, lease: Identity, now: int): Outcome {
    if lease.expiresAt <= now then Failed(AccessExpired) else
    match SlotOfAccessId(s.accesses, lease.accessId)
    case None => Failed(InvalidAccessToken)
    case Some(k) =>
      if !Joined(s, k) then Failed(InvalidAccessToken) else
      var f := s.families[k.family];
      var d := s.devices[f.device];
      var a := s.accesses[k];
      if f.user != lease.user || f.device != lease.device || k.family != lease.family || k.generation != lease.generation
         || a.version != lease.version || f.server != lease.server then Failed(InvalidAccessToken)
      else if !s.users[f.user] then Failed(UserInactive)
      else if !d.active then Failed(DeviceRevoked)
      else if !f.active then Failed(FamilyIsRevoked)
      else if a.status != SessionActive || f.version != lease.version || d.version != lease.version
              || Instant(a.expiresAt) != lease.expiresAt then Failed(InvalidAccessToken)
      else Done
  }

  function Revoke(s: Store, user: Id, family: Id): (Store, Outcome) {
    if family !in s.families || s.families[family].user != user then (s, Failed(InvalidRequest))
    else if !s.families[family].active then (s, Failed(FamilyIsRevoked))
    else (RevokeRows(s, family), Done)
  }

  /** A password change revokes the other families of the account, leaving their rows as they are. */
  function ChangePassword(s: Store, user: Id, keep: Option<Id>): Store {
    s.(families := map f | f in s.families ::
      if s.families[f].user == user && s.families[f].active && keep != Some(f)
      then s.families[f].(active := false, version := s.families[f].version + 1)
      else s.families[f])
  }

  // The hourly sweeps. `chosen` is the batch that LIMIT lets through.

  predicate RotationSweepable(r: Rotation, now: int) {
    r.resultExpiresAt <= Seconds(now) && r.result.Sealed?
  }

  function Erased(rotations: map<Slot, Rotation>, chosen: set<Slot>, now: int): map<Slot, Rotation> {
    map k | k in rotations ::
      if k in chosen && RotationSweepable(rotations[k], now) then rotations[k].(result := Blank) else rotations[k]
  }

  function SweepRotations(s: Store, chosen: set<Slot>, now: int): Store {
    s.(rotations := Erased(s.rotations, chosen, now))
  }

  predicate ResultSweepable(g: Grant, now: int) {
    g.status == Consumed && g.result.Sealed? && g.resultExpiresAt.Some? && g.resultExpiresAt.value <= Seconds(now)
  }

  function SweepResults(s: Store, now: int): Store {
    s.(grants := map id | id in s.grants ::
      if ResultSweepable(s.grants[id], now)
      then s.grants[id].(result := Blank, updatedAt := Seconds(now)) else s.grants[id])
  }

  function ExpireAll(grants: map<Id, Grant>, now: int): map<Id, Grant> {
    map id | id in grants ::
      if grants[id].Active() && grants[id].expiresAt <= Seconds(now)
      then grants[id].(status := Expired, updatedAt := Seconds(now)) else grants[id]
  }

  predicate Removable(grants: map<Id, Grant>, families: map<Id, Family>, id: Id, now: int) {
    && id in grants
    && (grants[id].status == Expired || grants[id].status == Denied)
    && grants[id].updatedAt <= Seconds(now) - EXPIRED_RETENTION_SECONDS
    && !HasFamily(families, id)
  }

  function Remove(grants: map<Id, Grant>, families: map<Id, Family>, chosen: set<Id>, now: int): map<Id, Grant> {
    map id | id in grants && !(id in chosen && Removable(grants, families, id, now)) :: grants[id]
  }

  function SweepGrants(s: Store, chosen: set<Id>, now: int): Store {
    s.(grants := Remove(ExpireAll(s.grants, now), s.families, chosen, now))
  }

  // One transaction of any kind.

  datatype Call =
    | CallStart(policy: Policy, start: StartRequest, draws: seq<GrantDraw>)
    | CallExpireCode(userCode: Id, server: Id)
    | CallReview(userCode: Id, server: Id)
    | CallDecide(grant: Id, approver: Option<Id>)
    | CallPoll(deviceCode: Id, server: Id)
    | CallExchange(key: Id, policy: Policy, exchange: ExchangeRequest, draw: Draw)
    | CallRotate(key: Id, policy: Policy, rotate: RotateRequest, draw: Draw)
    | CallAuthenticate(token: Id, server: Id)
    | CallRevoke(user: Id, family: Id)
    | CallChangePassword(user: Id, keep: Option<Id>)
    | CallSetUser(user: Id, active: bool)
    | CallRevokeDevice(device: Id)
    | CallSweepRotations(slots: set<Slot>)
    | CallSweepResults
    | CallSweepGrants(grants: set<Id>)

  ghost function Transact(s: Store, call: Call, now: int): (Store, Outcome) {
    match call
    case CallStart(p, q, draws) => Start(s, p, q, draws, now)
    case CallExpireCode(code, server) => (ExpireByCode(s, code, server, now), Done)
    case CallReview(code, server) => (s, Review(s, code, server))
    case CallDecide(id, approver) => Decide(s, id, approver, now)
    case CallPoll(code, server) => Poll(s, code, server, now)
    case CallExchange(key, p, q, draw) => Exchange(s, key, p, q, draw, now)
    case CallRotate(key, p, q, draw) => Rotate(s, key, p, q, draw, now)
    case CallAuthenticate(token, server) => Authenticate(s, token, server, now)
    case CallRevoke(user, family) => Revoke(s, user, family)
    case CallChangePassword(user, keep) => (ChangePassword(s, user, keep), Done)
    case CallSetUser(user, active) => (s.(users := s.users[user := active]), Done)
    case CallRevokeDevice(d) =>
      (if d in s.devices then s.(devices := s.devices[d := s.devices[d].(active := false)]) else s, Done)
    case CallSweepRotations(slots) => (SweepRotations(s, slots, now), Swept)
    case CallSweepResults => (SweepResults(s, now), Swept)
    case CallSweepGrants(ids) => (SweepGrants(s, ids, now), Swept)
  }

  /** A transaction with its commit or rollback. */
  ghost function Step(s: Store, call: Call, now: int): (Store, Outcome) {
    var (t, r) := Transact(s, call, now);
    Finish(s, t, r)
  }
}
