/**
 What every reachable store of the device-session service looks like.

 The tables change in few ways: rows fade (statuses drop, ciphertexts are erased), grants
 move, one grant is added, a first issue adds a family, a rotation adds a generation. Each
 way keeps `Inv` and extends the history of the store (`Extends`); `StepKeepsInv` puts the
 transactions into these classes.
 */
module DeviceInvariant {
  import opened Wrappers
  import opened Clock
  import opened DeviceTables
  import opened DeviceTransactions

  /** The rows of family `f` are the unbroken chain of generations 0 to `n`; only the last may be live. */
  ghost predicate Chain(s: Store, f: Id, n: nat) {
    && (forall g :: Slot(f, g) in s.refreshes <==> 0 <= g <= n)
    && (forall g :: Slot(f, g) in s.accesses <==> 0 <= g <= n)
    && (forall g :: Slot(f, g) in s.rotations <==> 0 <= g < n)
    && (forall g :: 0 <= g < n ==> s.refreshes[Slot(f, g)].status in {RefreshRotated, RefreshRevoked})
    && (forall g :: 0 <= g < n ==> s.accesses[Slot(f, g)].status != SessionActive)
  }

  ghost predicate HasChain(s: Store, f: Id) {
    exists n: nat :: Chain(s, f, n)
  }

  ghost predicate RowsHaveFamilies(s: Store) {
    && (forall k :: k in s.refreshes ==> k.family in s.families)
    && (forall k :: k in s.accesses ==> k.family in s.families)
    && (forall k :: k in s.rotations ==> k.family in s.families)
  }

  ghost predicate ChainInv(s: Store) {
    RowsHaveFamilies(s) && forall f :: f in s.families ==> HasChain(s, f)
  }

  lemma ChainOf(s: Store, f: Id) returns (n: nat)
    requires ChainInv(s) && f in s.families
    ensures Chain(s, f, n)
  {
    hide Chain, RowsHaveFamilies;
    assert HasChain(s, f);
    n :| Chain(s, f, n);
  }

  ghost predicate RowInv(s: Store) {
    && (forall d :: d in s.devices ==> s.devices[d].version == 1)
    && (forall f :: f in s.families ==> s.families[f].device in s.devices && s.families[f].user in s.users)
    && (forall f :: f in s.families && s.families[f].active ==> s.families[f].version == 1)
    && (forall f :: f in s.families ==> s.families[f].slidingExpiresAt <= s.families[f].absoluteExpiresAt)
    && (forall k :: k in s.accesses ==> s.accesses[k].version == 1)
    && (forall k :: k in s.refreshes && k.family in s.families ==>
          s.refreshes[k].expiresAt <= s.families[k.family].absoluteExpiresAt)
  }

  ghost predicate SameInstallation(a: Device, b: Device) {
    a.user == b.user && a.server == b.server && a.installation == b.installation
  }

  ghost predicate UniqueInv(s: Store) {
    && (forall d, e :: d in s.devices && e in s.devices && SameInstallation(s.devices[d], s.devices[e]) ==> d == e)
    && (forall k, l :: k in s.accesses && l in s.accesses && s.accesses[k].id == s.accesses[l].id ==> k == l)
    && (forall k, l :: k in s.accesses && l in s.accesses && s.accesses[k].token == s.accesses[l].token ==> k == l)
    && (forall k, l :: k in s.refreshes && l in s.refreshes && s.refreshes[k].token == s.refreshes[l].token ==> k == l)
    && (forall k, l :: k in s.rotations && l in s.rotations && s.rotations[k].transaction == s.rotations[l].transaction ==> k == l)
  }

  /** The credentials `c` are the ones the rows of their generation were written for. */
  ghost predicate Describes(s: Store, c: Credentials) {
    var k := Slot(c.family, c.generation);
    && c.family in s.families && k in s.accesses && k in s.refreshes
    && c.accessToken == s.accesses[k].token
    && c.refreshToken == s.refreshes[k].token
    && c.device == s.families[c.family].device
    && c.user == s.families[c.family].user
    && c.server == s.families[c.family].server
    && c.version == s.accesses[k].version
    && Seconds(c.accessExpiresAt) == s.accesses[k].expiresAt
    && Seconds(c.refreshExpiresAt) == s.refreshes[k].expiresAt
    && Seconds(c.absoluteExpiresAt) == s.families[c.family].absoluteExpiresAt
    && c.issuedAt < Instant(s.families[c.family].absoluteExpiresAt)
  }

  ghost predicate RotationResult(s: Store, k: Slot, result: Ciphertext) {
    result.Sealed? ==>
      && k in s.rotations && k in s.refreshes && k.family in s.families
      && result.aad == AadOf(s, k, s.rotations[k].transaction, s.refreshes[k].token)
      && result.plaintext.family == k.family
      && result.plaintext.generation == k.generation + 1
      && Describes(s, result.plaintext)
  }

  ghost predicate ResultInv(s: Store) {
    forall k :: k in s.rotations ==> RotationResult(s, k, s.rotations[k].result)
  }

  ghost predicate ExchangeResult(s: Store, id: Id) {
    id in s.grants &&
    (s.grants[id].result.Sealed? ==>
      var g := s.grants[id];
      var c := g.result.plaintext;
      && g.status == Consumed
      && g.transaction.Some?
      && g.result.aad == ExchangeAad(id, g.server, g.transaction.value, g.deviceCode)
      && c.generation == 0
      && c.family in s.families && s.families[c.family].authorization == id
      && Describes(s, c))
  }

  ghost predicate GrantShape(s: Store, id: Id) {
    id in s.grants &&
    var g := s.grants[id];
    && (g.status == Consumed <==> HasFamily(s.families, id))
    && (g.status == Consumed <==> g.transaction.Some?)
    && (g.status == Consumed <==> g.resultExpiresAt.Some?)
    && (g.status == Approved || g.status == Consumed ==> g.approvedUser.Some? && g.approvedUser.value in s.users)
  }

  ghost predicate GrantInv(s: Store) {
    && (forall id :: id in s.grants ==> GrantShape(s, id) && ExchangeResult(s, id))
    && (forall f :: f in s.families ==> s.families[f].authorization in s.grants)
    && (forall f, h :: f in s.families && h in s.families && s.families[f].authorization == s.families[h].authorization ==> f == h)
  }

  ghost predicate CodeInv(grants: map<Id, Grant>) {
    && (forall i, j :: i in grants && j in grants && grants[i].deviceCode == grants[j].deviceCode ==> i == j)
    && (forall i, j :: i in grants && j in grants && grants[i].userCode == grants[j].userCode ==> i == j)
    && (forall i, j :: i in grants && j in grants && grants[i].transaction.Some? && grants[i].transaction == grants[j].transaction ==> i == j)
  }

  ghost predicate CapacityInv(grants: map<Id, Grant>) {
    forall server: Id :: |ActiveGrants(grants, server)| <= MAX_ACTIVE_GRANTS
  }

  ghost predicate Inv(s: Store) {
    ChainInv(s) && RowInv(s) && UniqueInv(s) && ResultInv(s) && GrantInv(s) && CodeInv(s.grants) && CapacityInv(s.grants)
  }

  lemma EmptyInv()
    ensures Inv(EMPTY)
  {
    forall server: Id ensures |ActiveGrants(EMPTY.grants, server)| <= MAX_ACTIVE_GRANTS {
      assert ActiveGrants(EMPTY.grants, server) == {};
    }
  }

  // What no later step takes back.

  ghost predicate ResultFades(r: Ciphertext, t: Ciphertext) {
    t == r || t == Blank
  }

  ghost predicate AccessFades(a: Access, b: Access) {
    b.id == a.id && b.token == a.token && b.version == a.version && b.expiresAt == a.expiresAt
    && (b.status == a.status || b.status != SessionActive)
  }

  ghost predicate RefreshFades(a: Refresh, b: Refresh) {
    b.token == a.token && b.expiresAt == a.expiresAt
    && (b.status == a.status || (a.status == RefreshActive && b.status in {RefreshRevoked, RefreshExpired})
        || (a.status == RefreshRotated && b.status == RefreshRevoked))
  }

  ghost predicate RefreshLasts(a: Refresh, b: Refresh) {
    b.token == a.token && b.expiresAt == a.expiresAt && (b.status == RefreshActive ==> a.status == RefreshActive)
  }

  ghost predicate RotationFades(a: Rotation, b: Rotation) {
    b.transaction == a.transaction && b.resultExpiresAt == a.resultExpiresAt && ResultFades(a.result, b.result)
  }

  ghost predicate FamilyLasts(a: Family, b: Family) {
    b.authorization == a.authorization && b.device == a.device && b.user == a.user && b.server == a.server
    && b.absoluteExpiresAt == a.absoluteExpiresAt && (b.active ==> a.active && b.version == a.version)
  }

  ghost predicate DeviceLasts(a: Device, b: Device) {
    b.user == a.user && b.server == a.server && b.installation == a.installation && b.version == a.version && (b.active ==> a.active)
  }

  ghost predicate ConsumedLasts(a: Grant, b: Grant) {
    a.status == Consumed ==> b == a.(result := b.result, updatedAt := b.updatedAt) && ResultFades(a.result, b.result)
  }

  ghost predicate Extends(s: Store, t: Store) {
    && (forall d :: d in s.devices ==> d in t.devices && DeviceLasts(s.devices[d], t.devices[d]))
    && (forall f :: f in s.families ==> f in t.families && FamilyLasts(s.families[f], t.families[f]))
    && (forall k :: k in s.accesses ==> k in t.accesses && AccessFades(s.accesses[k], t.accesses[k]))
    && (forall k :: k in s.refreshes ==> k in t.refreshes && RefreshLasts(s.refreshes[k], t.refreshes[k]))
    && (forall k :: k in s.rotations ==> k in t.rotations && RotationFades(s.rotations[k], t.rotations[k]))
    && (forall id :: id in s.grants && s.grants[id].status == Consumed ==> id in t.grants && ConsumedLasts(s.grants[id], t.grants[id]))
  }

  lemma ExtendsIsReflexive(s: Store)
    ensures Extends(s, s)
  {
  }

  lemma ExtendsIsTransitive(s: Store, t: Store, u: Store)
    requires Extends(s, t) && Extends(t, u)
    ensures Extends(s, u)
  {
  }

  // Class 1: rows fade, nothing is inserted.

  ghost predicate Fades(s: Store, t: Store) {
    && t.grants == s.grants
    && s.users.Keys <= t.users.Keys
    && t.devices.Keys == s.devices.Keys && (forall d :: d in s.devices ==> DeviceLasts(s.devices[d], t.devices[d]))
    && t.families.Keys == s.families.Keys && (forall f :: f in s.families ==>
         FamilyLasts(s.families[f], t.families[f]) && t.families[f].slidingExpiresAt == s.families[f].slidingExpiresAt)
    && t.accesses.Keys == s.accesses.Keys && (forall k :: k in s.accesses ==> AccessFades(s.accesses[k], t.accesses[k]))
    && t.refreshes.Keys == s.refreshes.Keys && (forall k :: k in s.refreshes ==> RefreshFades(s.refreshes[k], t.refreshes[k]))
    && t.rotations.Keys == s.rotations.Keys && (forall k :: k in s.rotations ==> RotationFades(s.rotations[k], t.rotations[k]))
  }

  /** An expired refresh credential is never a rotated one, so a fading chain keeps its shape. */
  lemma FadesKeepsOneChain(s: Store, t: Store, f: Id, n: nat)
    requires Fades(s, t) && Chain(s, f, n)
    ensures Chain(t, f, n)
  {
    assert forall g :: Slot(f, g) in t.refreshes <==> Slot(f, g) in s.refreshes;
    assert forall g :: Slot(f, g) in t.accesses <==> Slot(f, g) in s.accesses;
    assert forall g :: Slot(f, g) in t.rotations <==> Slot(f, g) in s.rotations;
  }

  lemma FadesKeepsChain(s: Store, t: Store)
    requires Fades(s, t) && ChainInv(s)
    ensures ChainInv(t)
  {
    hide Chain;
    forall f | f in t.families
      ensures HasChain(t, f)
    {
      var n := ChainOf(s, f);
      FadesKeepsOneChain(s, t, f, n);
    }
  }

  lemma DescribesLasts(s: Store, t: Store, c: Credentials)
    requires Extends(s, t) && Describes(s, c)
    ensures Describes(t, c)
  {
  }

  lemma FadesExtends(s: Store, t: Store)
    requires Fades(s, t)
    ensures Extends(s, t)
  {
  }

  lemma FadesKeepsResults(s: Store, t: Store)
    requires Fades(s, t) && ResultInv(s) && GrantInv(s)
    ensures ResultInv(t) && GrantInv(t)
  {
    FadesExtends(s, t);
    forall k | k in t.rotations ensures RotationResult(t, k, t.rotations[k].result) {
      assert RotationResult(s, k, s.rotations[k].result);
      if t.rotations[k].result.Sealed? {
        DescribesLasts(s, t, t.rotations[k].result.plaintext);
      }
    }
    SameFamiliesOfGrants(s.families, t.families);
    forall id | id in t.grants ensures GrantShape(t, id) && ExchangeResult(t, id) {
      assert GrantShape(s, id) && ExchangeResult(s, id);
      if t.grants[id].result.Sealed? {
        DescribesLasts(s, t, t.grants[id].result.plaintext);
      }
    }
  }

  lemma SameFamiliesOfGrants(a: map<Id, Family>, b: map<Id, Family>)
    requires a.Keys == b.Keys && forall f :: f in a ==> b[f].authorization == a[f].authorization
    ensures forall id :: HasFamily(b, id) <==> HasFamily(a, id)
  {
    forall id ensures HasFamily(b, id) <==> HasFamily(a, id) {
      if HasFamily(a, id) {
        var f :| f in a && a[f].authorization == id;
        assert b[f].authorization == id;
      }
      if HasFamily(b, id) {
        var f :| f in b && b[f].authorization == id;
        assert a[f].authorization == id;
      }
    }
  }

  lemma FadesKeepsRows(s: Store, t: Store)
    requires Fades(s, t) && RowInv(s)
    ensures RowInv(t)
  {
  }

  lemma FadesKeepsUnique(s: Store, t: Store)
    requires Fades(s, t) && UniqueInv(s)
    ensures UniqueInv(t)
  {
  }

  lemma FadesKeepsInv(s: Store, t: Store)
    requires Fades(s, t) && Inv(s)
    ensures Inv(t) && Extends(s, t)
  {
    assert ChainInv(t) by { FadesKeepsChain(s, t); }
    assert RowInv(t) by { FadesKeepsRows(s, t); }
    assert UniqueInv(t) by { FadesKeepsUnique(s, t); }
    assert ResultInv(t) && GrantInv(t) by { FadesKeepsResults(s, t); }
    assert Extends(s, t) by { FadesExtends(s, t); }
  }

  // Class 2: grants move, the credential tables stay.

  ghost predicate GrantMoves(s: Store, a: Grant, b: Grant) {
    && b.deviceCode == a.deviceCode && b.userCode == a.userCode && b.server == a.server
    && b.transaction == a.transaction && b.resultExpiresAt == a.resultExpiresAt
    && ResultFades(a.result, b.result)
    && (b.status == Consumed <==> a.status == Consumed)
    && (b.Active() ==> a.Active())
    && (b.status == Approved ==> b.approvedUser.Some? && b.approvedUser.value in s.users)
    && ConsumedLasts(a, b)
  }

  ghost predicate GrantsMove(s: Store, t: Store) {
    && t == s.(grants := t.grants)
    && (forall id :: id in t.grants ==> id in s.grants && GrantMoves(s, s.grants[id], t.grants[id]))
    && (forall id :: id in s.grants && s.grants[id].status == Consumed ==> id in t.grants)
  }

  lemma ActiveGrantsShrink(a: map<Id, Grant>, b: map<Id, Grant>)
    requires forall id :: id in b ==> id in a && b[id].server == a[id].server && (b[id].Active() ==> a[id].Active())
    requires CapacityInv(a)
    ensures CapacityInv(b)
  {
    forall server: Id ensures |ActiveGrants(b, server)| <= MAX_ACTIVE_GRANTS {
      SubsetSize(ActiveGrants(b, server), ActiveGrants(a, server));
    }
  }

  lemma {:induction false} SubsetSize<T>(a: set<T>, b: set<T>)
    requires a <= b
    ensures |a| <= |b|
  {
    if a != {} {
      var x :| x in a;
      SubsetSize(a - {x}, b - {x});
    }
  }

  lemma GrantsMoveExtends(s: Store, t: Store)
    requires GrantsMove(s, t)
    ensures Extends(s, t)
  {
  }

  lemma GrantsMoveKeepsResults(s: Store, t: Store)
    requires GrantsMove(s, t) && ResultInv(s) && GrantInv(s)
    ensures ResultInv(t) && GrantInv(t)
  {
    forall k | k in t.rotations ensures RotationResult(t, k, t.rotations[k].result) {
      assert RotationResult(s, k, s.rotations[k].result);
    }
    forall id | id in t.grants ensures GrantShape(t, id) && ExchangeResult(t, id) {
      assert GrantShape(s, id) && ExchangeResult(s, id);
    }
    forall f | f in t.families ensures t.families[f].authorization in t.grants {
      assert HasFamily(s.families, s.families[f].authorization);
      assert GrantShape(s, s.families[f].authorization);
    }
  }

  lemma GrantsMoveKeepsInv(s: Store, t: Store)
    requires GrantsMove(s, t) && Inv(s)
    ensures Inv(t) && Extends(s, t)
  {
    assert CapacityInv(t.grants) by { ActiveGrantsShrink(s.grants, t.grants); }
    assert ChainInv(t) by { SameTablesKeepChain(s, t); }
    assert ResultInv(t) && GrantInv(t) by { GrantsMoveKeepsResults(s, t); }
    assert Extends(s, t) by { GrantsMoveExtends(s, t); }
    assert CodeInv(t.grants) by { GrantsMoveKeepCodes(s, t); }
  }

  lemma GrantsMoveKeepCodes(s: Store, t: Store)
    requires GrantsMove(s, t) && CodeInv(s.grants)
    ensures CodeInv(t.grants)
  {
  }

  lemma SameTablesKeepChain(s: Store, t: Store)
    requires t.families == s.families && t.accesses == s.accesses && t.refreshes == s.refreshes && t.rotations == s.rotations
    requires ChainInv(s)
    ensures ChainInv(t)
  {
    forall f | f in t.families
      ensures HasChain(t, f)
    {
      var n := ChainOf(s, f);
      assert Chain(t, f, n);
    }
  }

  // Class 3: one pending grant is added.

  ghost predicate NewPending(grants: map<Id, Grant>, id: Id, g: Grant) {
    && id !in grants
    && g.status == Pending && g.result == Blank && g.transaction == None && g.resultExpiresAt == None
    && (forall i :: i in grants ==> grants[i].deviceCode != g.deviceCode && grants[i].userCode != g.userCode)
  }

  lemma AddGrantKeepsResults(s: Store, id: Id, g: Grant)
    requires ResultInv(s) && GrantInv(s) && NewPending(s.grants, id, g)
    ensures var t := s.(grants := s.grants[id := g]);
            ResultInv(t) && GrantInv(t)
  {
    var t := s.(grants := s.grants[id := g]);
    forall k | k in t.rotations ensures RotationResult(t, k, t.rotations[k].result) {
      assert RotationResult(s, k, s.rotations[k].result);
    }
    forall i | i in t.grants ensures GrantShape(t, i) && ExchangeResult(t, i) {
      if i == id {
        assert !HasFamily(s.families, id);
      } else {
        assert GrantShape(s, i) && ExchangeResult(s, i);
      }
    }
  }

  lemma AddGrantKeepsCapacity(grants: map<Id, Grant>, id: Id, g: Grant)
    requires CapacityInv(grants) && id !in grants && |ActiveGrants(grants, g.server)| < MAX_ACTIVE_GRANTS
    ensures CapacityInv(grants[id := g])
  {
    var after := grants[id := g];
    forall server: Id ensures |ActiveGrants(after, server)| <= MAX_ACTIVE_GRANTS {
      if server == g.server && g.Active() {
        assert ActiveGrants(after, server) == ActiveGrants(grants, server) + {id};
      } else {
        assert ActiveGrants(after, server) == ActiveGrants(grants, server);
      }
    }
  }

  lemma AddGrantKeepsInv(s: Store, id: Id, g: Grant)
    requires Inv(s) && NewPending(s.grants, id, g)
    requires |ActiveGrants(s.grants, g.server)| < MAX_ACTIVE_GRANTS
    ensures var t := s.(grants := s.grants[id := g]);
            Inv(t) && Extends(s, t)
  {
    var t := s.(grants := s.grants[id := g]);
    assert ChainInv(t) by { SameTablesKeepChain(s, t); }
    assert ResultInv(t) && GrantInv(t) by { AddGrantKeepsResults(s, id, g); }
    assert CapacityInv(t.grants) by { AddGrantKeepsCapacity(s.grants, id, g); }
    assert CodeInv(t.grants) by { AddGrantKeepsCodes(s.grants, id, g); }
    assert Extends(s, t) by { AddGrantExtends(s, id, g); }
  }

  lemma AddGrantKeepsCodes(grants: map<Id, Grant>, id: Id, g: Grant)
    requires CodeInv(grants) && NewPending(grants, id, g)
    ensures CodeInv(grants[id := g])
  {
  }

  lemma AddGrantExtends(s: Store, id: Id, g: Grant)
    requires NewPending(s.grants, id, g)
    ensures Extends(s, s.(grants := s.grants[id := g]))
  {
  }

  // Class 4: a rotation adds one generation.

  /** What a rotation has checked before it writes. */
  ghost predicate MintReady(s: Store, k: Slot, p: Policy, q: RotateRequest, draw: Draw, now: int) {
    && k in s.refreshes && Joined(s, k)
    && s.refreshes[k].token == q.token
    && s.refreshes[k].status == RefreshActive
    && s.families[k.family].server == p.server
    && s.families[k.family].active
    && now < Instant(s.refreshes[k].expiresAt) && now < Instant(s.families[k.family].absoluteExpiresAt)
    && !TransactionUsed(s.rotations, q.transaction)
    && !SlotCollides(s, Next(k), draw)
  }

  /** A live refresh credential is the last of its family and has no rotation record. */
  lemma ActiveIsLast(s: Store, k: Slot)
    requires ChainInv(s) && k in s.refreshes && s.refreshes[k].status == RefreshActive
    ensures k.generation >= 0 && Chain(s, k.family, k.generation)
    ensures k in s.accesses && k !in s.rotations && Next(k) !in s.refreshes && Next(k) !in s.accesses
  {
    var n := ChainOf(s, k.family);
    hide ChainInv;
    assert Slot(k.family, k.generation) in s.refreshes;
    assert k.generation == n;
  }

  lemma MintGrowsChain(s: Store, k: Slot, key: Id, p: Policy, q: RotateRequest, c: Credentials, accessId: Id, now: int)
    requires k in s.refreshes && k.family in s.families && k.generation >= 0 && Chain(s, k.family, k.generation)
    ensures Chain(Minted(s, k, key, p, q, c, accessId, now), k.family, k.generation + 1)
  {
  }

  lemma MintLeavesChain(s: Store, k: Slot, key: Id, p: Policy, q: RotateRequest, c: Credentials, accessId: Id, now: int, f: Id, n: nat)
    requires k in s.refreshes && k.family in s.families && f != k.family && Chain(s, f, n)
    ensures Chain(Minted(s, k, key, p, q, c, accessId, now), f, n)
  {
  }

  lemma MintKeepsChain(s: Store, k: Slot, key: Id, p: Policy, q: RotateRequest, c: Credentials, accessId: Id, now: int)
    requires ChainInv(s) && k in s.refreshes && s.refreshes[k].status == RefreshActive && k.family in s.families
    ensures ChainInv(Minted(s, k, key, p, q, c, accessId, now))
  {
    hide Chain, Minted;
    var t := Minted(s, k, key, p, q, c, accessId, now);
    ActiveIsLast(s, k);
    MintGrowsChain(s, k, key, p, q, c, accessId, now);
    MintedFamilies(s, k, key, p, q, c, accessId, now);
    forall f | f in t.families
      ensures HasChain(t, f)
    {
      if f == k.family {
        assert Chain(t, f, k.generation + 1);
      } else {
        var n := ChainOf(s, f);
        MintLeavesChain(s, k, key, p, q, c, accessId, now, f, n);
      }
    }
  }

  lemma MintedFamilies(s: Store, k: Slot, key: Id, p: Policy, q: RotateRequest, c: Credentials, accessId: Id, now: int)
    requires RowsHaveFamilies(s) && k in s.refreshes && k.family in s.families
    ensures var t := Minted(s, k, key, p, q, c, accessId, now); RowsHaveFamilies(t) && t.families.Keys == s.families.Keys
  {
  }

  lemma MintKeepsRows(s: Store, k: Slot, key: Id, p: Policy, q: RotateRequest, draw: Draw, now: int)
    requires RowInv(s) && MintReady(s, k, p, q, draw, now)
    ensures RowInv(Minted(s, k, key, p, q, NextCredentials(s, k, p, draw, now), draw.accessId, now))
  {
    var f := s.families[k.family];
    var c := NextCredentials(s, k, p, draw, now);
    assert Seconds(c.refreshExpiresAt) <= f.absoluteExpiresAt;
  }

  lemma MintedAccessesAreUnique(s: Store, k: Slot, key: Id, p: Policy, q: RotateRequest, draw: Draw, now: int)
    requires UniqueInv(s) && MintReady(s, k, p, q, draw, now)
    ensures var t := Minted(s, k, key, p, q, NextCredentials(s, k, p, draw, now), draw.accessId, now);
      (forall a, b :: a in t.accesses && b in t.accesses && t.accesses[a].id == t.accesses[b].id ==> a == b)
      && (forall a, b :: a in t.accesses && b in t.accesses && t.accesses[a].token == t.accesses[b].token ==> a == b)
  {
    hide Seconds, Span, Instant, AadOf, TransactionUsed, Earlier;
  }

  lemma MintedTokensAreUnique(s: Store, k: Slot, key: Id, p: Policy, q: RotateRequest, draw: Draw, now: int)
    requires UniqueInv(s) && MintReady(s, k, p, q, draw, now)
    ensures var t := Minted(s, k, key, p, q, NextCredentials(s, k, p, draw, now), draw.accessId, now);
      (forall a, b :: a in t.refreshes && b in t.refreshes && t.refreshes[a].token == t.refreshes[b].token ==> a == b)
      && (forall a, b :: a in t.rotations && b in t.rotations && t.rotations[a].transaction == t.rotations[b].transaction ==> a == b)
      && t.devices == s.devices
  {
    hide Seconds, Span, Instant, AadOf, Earlier;
  }

  lemma MintKeepsUnique(s: Store, k: Slot, key: Id, p: Policy, q: RotateRequest, draw: Draw, now: int)
    requires UniqueInv(s) && MintReady(s, k, p, q, draw, now)
    ensures UniqueInv(Minted(s, k, key, p, q, NextCredentials(s, k, p, draw, now), draw.accessId, now))
  {
    hide Minted, NextCredentials, SlotCollides, TransactionUsed;
    MintedAccessesAreUnique(s, k, key, p, q, draw, now);
    MintedTokensAreUnique(s, k, key, p, q, draw, now);
  }

  lemma MintExtends(s: Store, k: Slot, key: Id, p: Policy, q: RotateRequest, draw: Draw, now: int)
    requires MintReady(s, k, p, q, draw, now) && k !in s.rotations
    ensures Extends(s, Minted(s, k, key, p, q, NextCredentials(s, k, p, draw, now), draw.accessId, now))
  {
    var t := Minted(s, k, key, p, q, NextCredentials(s, k, p, draw, now), draw.accessId, now);
    assert Next(k) !in s.accesses && Next(k) !in s.refreshes;
    assert forall l :: l in s.accesses ==> l in t.accesses && AccessFades(s.accesses[l], t.accesses[l]);
    assert forall l :: l in s.refreshes ==> l in t.refreshes && RefreshLasts(s.refreshes[l], t.refreshes[l]);
  }

  lemma MintDescribes(s: Store, k: Slot, key: Id, p: Policy, q: RotateRequest, draw: Draw, now: int)
    requires RowInv(s) && MintReady(s, k, p, q, draw, now)
    ensures var c := NextCredentials(s, k, p, draw, now);
            Describes(Minted(s, k, key, p, q, c, draw.accessId, now), c)
  {
  }

  lemma MintKeepsResults(s: Store, k: Slot, key: Id, p: Policy, q: RotateRequest, draw: Draw, now: int)
    requires RowInv(s) && ResultInv(s) && MintReady(s, k, p, q, draw, now) && k !in s.rotations
    ensures ResultInv(Minted(s, k, key, p, q, NextCredentials(s, k, p, draw, now), draw.accessId, now))
  {
    var t := Minted(s, k, key, p, q, NextCredentials(s, k, p, draw, now), draw.accessId, now);
    MintExtends(s, k, key, p, q, draw, now);
    MintDescribes(s, k, key, p, q, draw, now);
    forall l | l in t.rotations ensures RotationResult(t, l, t.rotations[l].result) {
      if l != k {
        assert RotationResult(s, l, s.rotations[l].result);
        if s.rotations[l].result.Sealed? {
          DescribesLasts(s, t, s.rotations[l].result.plaintext);
        }
      }
    }
  }

  /** The grants keep their shape when the families keep their authorizations and nothing described is lost. */
  lemma ExtendsKeepsGrants(s: Store, t: Store)
    requires GrantInv(s) && Extends(s, t) && t.grants == s.grants && t.users == s.users
    requires t.families.Keys == s.families.Keys
    ensures GrantInv(t)
  {
    SameFamiliesOfGrants(s.families, t.families);
    forall id | id in t.grants ensures GrantShape(t, id) && ExchangeResult(t, id) {
      assert GrantShape(s, id) && ExchangeResult(s, id);
      if t.grants[id].result.Sealed? {
        DescribesLasts(s, t, t.grants[id].result.plaintext);
      }
    }
  }

  lemma MintKeepsTables(s: Store, k: Slot, key: Id, p: Policy, q: RotateRequest, draw: Draw, now: int)
    requires ChainInv(s) && RowInv(s) && UniqueInv(s) && MintReady(s, k, p, q, draw, now)
    ensures var t := Minted(s, k, key, p, q, NextCredentials(s, k, p, draw, now), draw.accessId, now);
            ChainInv(t) && RowInv(t) && UniqueInv(t)
  {
    MintKeepsChain(s, k, key, p, q, NextCredentials(s, k, p, draw, now), draw.accessId, now);
    MintKeepsRows(s, k, key, p, q, draw, now);
    MintKeepsUnique(s, k, key, p, q, draw, now);
  }

  lemma MintKeepsHistory(s: Store, k: Slot, key: Id, p: Policy, q: RotateRequest, draw: Draw, now: int)
    requires RowInv(s) && ResultInv(s) && GrantInv(s) && MintReady(s, k, p, q, draw, now) && k !in s.rotations
    ensures var t := Minted(s, k, key, p, q, NextCredentials(s, k, p, draw, now), draw.accessId, now);
            ResultInv(t) && GrantInv(t) && Extends(s, t)
  {
    var t := Minted(s, k, key, p, q, NextCredentials(s, k, p, draw, now), draw.accessId, now);
    MintKeepsResults(s, k, key, p, q, draw, now);
    MintExtends(s, k, key, p, q, draw, now);
    ExtendsKeepsGrants(s, t);
  }

  lemma MintKeepsInv(s: Store, k: Slot, key: Id, p: Policy, q: RotateRequest, draw: Draw, now: int)
    requires Inv(s) && MintReady(s, k, p, q, draw, now)
    ensures var t := Minted(s, k, key, p, q, NextCredentials(s, k, p, draw, now), draw.accessId, now);
            Inv(t) && Extends(s, t)
  {
    ActiveIsLast(s, k);
    MintKeepsTables(s, k, key, p, q, draw, now);
    MintKeepsHistory(s, k, key, p, q, draw, now);
  }

  // Class 5: a first issue adds a family, and its device when the installation is new.

  ghost predicate IssueReady(s: Store, id: Id, p: Policy, q: ExchangeRequest, draw: Draw) {
    && p.Valid()
    && id in s.grants && s.grants[id].status == Approved && s.grants[id].server == p.server
    && s.grants[id].deviceCode == q.deviceCode
    && s.grants[id].approvedUser.Some? && UserActive(s, s.grants[id].approvedUser.value)
    && !FirstCollides(s, id, q.transaction, draw)
    && (DeviceOf(s.devices, s.grants[id].approvedUser.value, p.server, s.grants[id].installation).None? ==> draw.device !in s.devices)
  }

  ghost predicate IssueResult(s: Store, id: Id, key: Id, p: Policy, q: ExchangeRequest, draw: Draw, now: int, t: Store, c: Credentials) {
    && IssueReady(s, id, p, q, draw)
    && IssueFirst(s, id, key, p, q, draw, now) == (t, Issued(c))
  }

  lemma IssueTables(s: Store, id: Id, key: Id, p: Policy, q: ExchangeRequest, draw: Draw, now: int, t: Store, c: Credentials)
    requires IssueResult(s, id, key, p, q, draw, now, t, c) && RowInv(s)
    ensures t.users == s.users
    ensures forall d :: d in s.devices ==> d in t.devices && t.devices[d] == s.devices[d]
    ensures forall d :: d in t.devices ==> t.devices[d].version == 1
    ensures c.device in t.devices && c.user in s.users
    ensures c == FirstCredentials(p, c.device, 1, c.user, draw, now)
    ensures t.families == s.families[draw.family := NewFamily(p, id, c.device, c.user, now)]
    ensures t.accesses == s.accesses[Slot(draw.family, 0) := Access(draw.accessId, draw.accessToken, SessionActive, 1, Seconds(c.accessExpiresAt))]
    ensures t.refreshes == s.refreshes[Slot(draw.family, 0) := Refresh(draw.refreshToken, RefreshActive, Seconds(c.refreshExpiresAt))]
    ensures t.rotations == s.rotations
    ensures t.grants == s.grants[id := s.grants[id].(
              status := Consumed,
              transaction := Some(q.transaction),
              result := Sealed(key, ExchangeAad(id, p.server, q.transaction, q.deviceCode), c),
              resultExpiresAt := Some(Seconds(now + Span(p.idempotencyTtl))),
              updatedAt := Seconds(now))]
  {
  }

  lemma IssueKeepsInstallations(s: Store, id: Id, key: Id, p: Policy, q: ExchangeRequest, draw: Draw, now: int, t: Store, c: Credentials)
    requires IssueResult(s, id, key, p, q, draw, now, t, c) && UniqueInv(s)
    ensures forall d, e :: d in t.devices && e in t.devices && SameInstallation(t.devices[d], t.devices[e]) ==> d == e
  {
  }

  lemma IssueKeepsChain(s: Store, id: Id, key: Id, p: Policy, q: ExchangeRequest, draw: Draw, now: int, t: Store, c: Credentials)
    requires IssueResult(s, id, key, p, q, draw, now, t, c) && RowInv(s) && ChainInv(s)
    ensures ChainInv(t)
  {
    hide Chain, RowsHaveFamilies, IssueResult, RowInv;
    NewFamilyIsFree(s, id, key, p, q, draw, now, t, c);
    forall f | f in t.families
      ensures HasChain(t, f)
    {
      if f == draw.family {
        FirstChain(s, id, key, p, q, draw, now, t, c);
      } else {
        var n := ChainOf(s, f);
        IssueLeavesChain(s, id, key, p, q, draw, now, t, c, f, n);
      }
    }
  }

  lemma NewFamilyIsFree(s: Store, id: Id, key: Id, p: Policy, q: ExchangeRequest, draw: Draw, now: int, t: Store, c: Credentials)
    requires IssueResult(s, id, key, p, q, draw, now, t, c) && RowInv(s) && RowsHaveFamilies(s)
    ensures t.families.Keys == s.families.Keys + {draw.family} && draw.family !in s.families && RowsHaveFamilies(t)
  {
    IssueTables(s, id, key, p, q, draw, now, t, c);
    hide IssueResult, RowInv, FirstCredentials, NewFamily;
  }

  lemma FirstChain(s: Store, id: Id, key: Id, p: Policy, q: ExchangeRequest, draw: Draw, now: int, t: Store, c: Credentials)
    requires IssueResult(s, id, key, p, q, draw, now, t, c) && RowInv(s) && RowsHaveFamilies(s)
    ensures HasChain(t, draw.family)
  {
    IssueTables(s, id, key, p, q, draw, now, t, c);
    NewFamilyIsFree(s, id, key, p, q, draw, now, t, c);
    assert forall g :: Slot(draw.family, g) !in s.refreshes && Slot(draw.family, g) !in s.accesses && Slot(draw.family, g) !in s.rotations;
    hide IssueResult, RowInv, FirstCredentials, NewFamily, RowsHaveFamilies;
    assert Chain(t, draw.family, 0);
  }

  lemma IssueLeavesChain(s: Store, id: Id, key: Id, p: Policy, q: ExchangeRequest, draw: Draw, now: int, t: Store, c: Credentials, f: Id, n: nat)
    requires IssueResult(s, id, key, p, q, draw, now, t, c) && RowInv(s) && f != draw.family && Chain(s, f, n)
    ensures Chain(t, f, n)
  {
    IssueTables(s, id, key, p, q, draw, now, t, c);
    hide IssueResult, RowInv, FirstCredentials, NewFamily;
  }

  lemma IssueKeepsRows(s: Store, id: Id, key: Id, p: Policy, q: ExchangeRequest, draw: Draw, now: int, t: Store, c: Credentials)
    requires IssueResult(s, id, key, p, q, draw, now, t, c) && RowInv(s) && ChainInv(s)
    ensures RowInv(t)
  {
    hide SlotCollides, HasFamily, HasChain;
    hide IssueFirst;
    IssueTables(s, id, key, p, q, draw, now, t, c);
    CutCommutesWithSpan(now, p.slidingTtl);
    CutCommutesWithSpan(now, p.absoluteTtl);
  }

  lemma IssueKeepsUnique(s: Store, id: Id, key: Id, p: Policy, q: ExchangeRequest, draw: Draw, now: int, t: Store, c: Credentials)
    requires IssueResult(s, id, key, p, q, draw, now, t, c) && RowInv(s) && UniqueInv(s)
    ensures UniqueInv(t)
  {
    hide IssueFirst;
    IssueTables(s, id, key, p, q, draw, now, t, c);
    IssueKeepsInstallations(s, id, key, p, q, draw, now, t, c);
  }

  lemma IssueDescribes(s: Store, id: Id, key: Id, p: Policy, q: ExchangeRequest, draw: Draw, now: int, t: Store, c: Credentials)
    requires IssueResult(s, id, key, p, q, draw, now, t, c) && RowInv(s)
    ensures Describes(t, c)
  {
    hide IssueFirst, RowInv, FirstCollides, DeviceOf;
    IssueTables(s, id, key, p, q, draw, now, t, c);
    CutCommutesWithSpan(now, p.absoluteTtl);
  }

  lemma IssueExtends(s: Store, id: Id, key: Id, p: Policy, q: ExchangeRequest, draw: Draw, now: int, t: Store, c: Credentials)
    requires IssueResult(s, id, key, p, q, draw, now, t, c) && RowInv(s)
    ensures Extends(s, t) && Describes(t, c)
  {
    hide IssueFirst, RowInv, Describes, Seconds, Span, NewFamily, FirstCredentials, DeviceOf, HasFamily;
    IssueTables(s, id, key, p, q, draw, now, t, c);
    IssueDescribes(s, id, key, p, q, draw, now, t, c);
  }

  lemma IssueKeepsResults(s: Store, id: Id, key: Id, p: Policy, q: ExchangeRequest, draw: Draw, now: int, t: Store, c: Credentials)
    requires IssueResult(s, id, key, p, q, draw, now, t, c) && RowInv(s) && ResultInv(s)
    ensures ResultInv(t)
  {
    IssueTables(s, id, key, p, q, draw, now, t, c);
    hide IssueFirst;
    IssueExtends(s, id, key, p, q, draw, now, t, c);
    forall l | l in t.rotations ensures RotationResult(t, l, t.rotations[l].result) {
      assert RotationResult(s, l, s.rotations[l].result);
      if s.rotations[l].result.Sealed? {
        DescribesLasts(s, t, s.rotations[l].result.plaintext);
      }
    }
  }

  lemma IssueKeepsGrants(s: Store, id: Id, key: Id, p: Policy, q: ExchangeRequest, draw: Draw, now: int, t: Store, c: Credentials)
    requires IssueResult(s, id, key, p, q, draw, now, t, c) && RowInv(s) && GrantInv(s)
    ensures GrantInv(t)
  {
    hide IssueFirst;
    IssueTables(s, id, key, p, q, draw, now, t, c);
    IssueExtends(s, id, key, p, q, draw, now, t, c);
    assert t.families[draw.family].authorization == id;
    forall i | i in t.grants ensures GrantShape(t, i) && ExchangeResult(t, i) {
      assert GrantShape(s, i) && ExchangeResult(s, i);
      if i != id {
        AddFamilyOfGrant(s.families, draw.family, t.families[draw.family], i);
        if t.grants[i].result.Sealed? {
          DescribesLasts(s, t, t.grants[i].result.plaintext);
        }
      }
    }
  }

  lemma AddFamilyOfGrant(families: map<Id, Family>, f: Id, family: Family, id: Id)
    requires f !in families && family.authorization != id
    ensures HasFamily(families[f := family], id) <==> HasFamily(families, id)
  {
    if HasFamily(families, id) {
      var h :| h in families && families[h].authorization == id;
      assert families[f := family][h].authorization == id;
    }
  }

  lemma IssueKeepsCodes(s: Store, id: Id, key: Id, p: Policy, q: ExchangeRequest, draw: Draw, now: int, t: Store, c: Credentials)
    requires IssueResult(s, id, key, p, q, draw, now, t, c) && RowInv(s) && CodeInv(s.grants) && CapacityInv(s.grants)
    ensures CodeInv(t.grants) && CapacityInv(t.grants)
  {
    hide IssueFirst;
    IssueTables(s, id, key, p, q, draw, now, t, c);
    ActiveGrantsShrink(s.grants, t.grants);
  }

  lemma IssueKeepsInv(s: Store, id: Id, key: Id, p: Policy, q: ExchangeRequest, draw: Draw, now: int, t: Store, c: Credentials)
    requires Inv(s) && IssueResult(s, id, key, p, q, draw, now, t, c)
    ensures Inv(t) && Extends(s, t)
  {
    assert ChainInv(t) by { IssueKeepsChain(s, id, key, p, q, draw, now, t, c); }
    assert RowInv(t) by { IssueKeepsRows(s, id, key, p, q, draw, now, t, c); }
    assert UniqueInv(t) by { IssueKeepsUnique(s, id, key, p, q, draw, now, t, c); }
    assert ResultInv(t) by { IssueKeepsResults(s, id, key, p, q, draw, now, t, c); }
    assert GrantInv(t) by { IssueKeepsGrants(s, id, key, p, q, draw, now, t, c); }
    assert CodeInv(t.grants) && CapacityInv(t.grants) by { IssueKeepsCodes(s, id, key, p, q, draw, now, t, c); }
    assert Extends(s, t) by { IssueExtends(s, id, key, p, q, draw, now, t, c); }
  }
}
