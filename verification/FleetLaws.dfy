/** What every run of pairing, release, removal, refresh, push registration and app sync keeps,
    although several of the handlers rely on it without checking. */
module FleetLaws {
  import opened Base
  import opened Rules
  import opened Fleet
  import T = Tokens
  import A = Apps

  /** At most one bound device per subject, and at most one per phone. */
  ghost predicate Matching(devices: map<DeviceId, Device>) {
    forall a, b :: a in devices && b in devices && Bound(devices[a]) && Bound(devices[b]) && a != b ==>
      devices[a].subject != devices[b].subject && devices[a].binding != devices[b].binding
  }

  ghost predicate DevicesHaveOwners(db: Db) {
    forall d :: d in db.devices && Bound(db.devices[d]) ==> Existing(db.subjects, db.devices[d].subject)
  }

  ghost predicate OpenCodesHaveOwners(db: Db) {
    forall c :: c in db.codes && db.codes[c].consumedAt == None ==> Existing(db.subjects, db.codes[c].subject)
  }

  /** The tokens of a device are only usable while it is bound. */
  ghost predicate TokensBound(db: Db) {
    forall id :: id in db.tokens && db.tokens[id].device.Some? ==>
      && db.tokens[id].device.value in db.devices
      && (db.tokens[id].revokedAt == None ==> Bound(db.devices[db.tokens[id].device.value]))
  }

  ghost predicate PushBound(db: Db) {
    forall p :: p in db.push && db.push[p].device.Some? ==>
      && db.push[p].device.value in db.devices
      && (db.push[p].revokedAt == None ==> Bound(db.devices[db.push[p].device.value]))
  }

  ghost predicate HasPhone(devices: map<DeviceId, Device>, s: SubjectId) {
    exists d :: d in devices && Bound(devices[d]) && devices[d].subject == s
  }

  ghost predicate AppsHeld(db: Db) {
    forall key :: key in db.apps ==> HasPhone(db.devices, key.0)
  }

  ghost predicate CodesCounted(codes: map<CodeText, Code>) {
    forall c :: c in codes ==>
      && codes[c].passed == Min(codes[c].attempts, MAX_ATTEMPTS)
      && codes[c].paired == (if codes[c].consumedAt.Some? then 1 else 0)
      && (codes[c].consumedAt.Some? ==> codes[c].consumedAt.value < codes[c].expiresAt)
  }

  ghost predicate Inv(db: Db) {
    && Matching(db.devices)
    && DevicesHaveOwners(db)
    && OpenCodesHaveOwners(db)
    && TokensBound(db)
    && PushBound(db)
    && AppsHeld(db)
    && CodesCounted(db.codes)
  }

  /** New ids do not collide with stored ones. */
  ghost predicate FreshOp(db: Db, op: Op) {
    match op
    case CreateOp(s, _) => s !in db.subjects
    case PairOp(_, _, device, token, chain, at) =>
      device !in db.devices && T.FreshOp(db.tokens, T.OpenOp(None, Some(device), chain, token, at))
    case LoginOp(user, token, chain, at) => T.FreshOp(db.tokens, T.OpenOp(Some(user), None, chain, token, at))
    case RefreshOp(presented, token, at) => token !in db.tokens
    case _ => true
  }

  lemma UnboundKeepsInv(db: Db, ids: set<DeviceId>, at: Moment)
    requires Inv(db)
    ensures Inv(Unbound(db, ids, at))
  {
    var after := Unbound(db, ids, at);
    forall key | key in after.apps ensures HasPhone(after.devices, key.0) {
      assert HasPhone(db.devices, key.0);
      var d :| d in db.devices && Bound(db.devices[d]) && db.devices[d].subject == key.0;
      assert d !in ids;
      assert after.devices[d] == db.devices[d];
    }
  }

  lemma CountedKeepsInv(db: Db, code: CodeText)
    requires Inv(db) && code in db.codes
    ensures Inv(Counted(db, code))
  {
  }

  /** `displace` takes at most two devices, and after it nothing can violate the unique index on bindings. */
  lemma DisplaceMakesRoom(db: Db, s: SubjectId, b: Binding, at: Moment)
    requires Inv(db)
    ensures forall x, y, z :: {x, y, z} <= Conflicting(db.devices, s, b) ==> x == y || y == z || x == z
    ensures var after := Unbound(db, Conflicting(db.devices, s, b), at);
            forall d :: d in after.devices && Bound(after.devices[d]) ==>
              after.devices[d].subject != s && after.devices[d].binding != b
  {
    forall x, y, z | {x, y, z} <= Conflicting(db.devices, s, b) ensures x == y || y == z || x == z {
      var conflicting := Conflicting(db.devices, s, b);
      assert x in conflicting && y in conflicting && z in conflicting;
    }
  }

  lemma NewDeviceKeepsPhones(devices: map<DeviceId, Device>, device: DeviceId, row: Device, s: SubjectId)
    requires device !in devices && HasPhone(devices, s)
    ensures HasPhone(devices[device := row], s)
  {
    var d :| d in devices && Bound(devices[d]) && devices[d].subject == s;
    assert devices[device := row][d] == devices[d];
  }

  lemma PairedKeepsInv(db: Db, code: CodeText, binding: Binding, device: DeviceId, token: T.TokenId, chain: T.Chain,
          at: Moment)
    requires Inv(db) && Pairable(db, code, at) && device !in db.devices && token !in db.tokens
    ensures Inv(Paired(db, code, binding, device, token, chain, at))
  {
    var counted := Counted(db, code);
    CountedKeepsInv(db, code);
    var s := db.codes[code].subject;
    var ids := Conflicting(db.devices, s, binding);
    var cleared := Unbound(counted, ids, at);
    UnboundKeepsInv(counted, ids, at);
    DisplaceMakesRoom(counted, s, binding, at);
    var after := Paired(db, code, binding, device, token, chain, at);
    assert after.devices == cleared.devices[device := Device(s, binding, Unknown, at, None)];
    assert device !in cleared.devices;
    forall key | key in after.apps ensures HasPhone(after.devices, key.0) {
      NewDeviceKeepsPhones(cleared.devices, device, Device(s, binding, Unknown, at, None), key.0);
    }
  }

  lemma RemovedKeepsInv(db: Db, s: SubjectId, at: Moment)
    requires Inv(db) && Existing(db.subjects, s)
    ensures Inv(Removed(db, s, at))
  {
    var released := Unbound(db, Holding(db.devices, s), at);
    UnboundKeepsInv(db, Holding(db.devices, s), at);
    var after := Removed(db, s, at);
    assert after.devices == released.devices && after.apps == released.apps;
    forall d | d in after.devices && Bound(after.devices[d])
      ensures Existing(after.subjects, after.devices[d].subject)
    {
      assert after.devices[d] == db.devices[d] && d !in Holding(db.devices, s);
    }
  }

  lemma IssuedKeepsInv(db: Db, s: SubjectId, code: CodeText, at: Moment)
    requires Inv(db) && Existing(db.subjects, s)
    ensures Inv(Issued(db, s, code, at))
  {
  }

  lemma TokensKeepInv(db: Db, op: T.Op)
    requires Inv(db) && T.FreshOp(db.tokens, op)
    requires op.OpenOp? ==> op.device == None
    ensures Inv(db.(tokens := T.Step(db.tokens, op)))
  {
  }

  lemma CreatedKeepsInv(db: Db, s: SubjectId, at: Moment)
    requires Inv(db) && s !in db.subjects
    ensures Inv(Step(db, CreateOp(s, at)))
  {
  }

  lemma PushKeepsInv(db: Db, op: Op)
    requires Inv(db) && (op.RememberOp? || op.DropOp? || op.PruneOp?)
    ensures Inv(Step(db, op))
  {
  }

  lemma SyncedKeepsInv(db: Db, d: DeviceId, apps: seq<A.App>, at: Moment)
    requires Inv(db) && MayCall(db, d)
    ensures Inv(db.(apps := A.Synced(db.apps, db.devices[d].subject, d, apps, at)))
  {
    var s := db.devices[d].subject;
    var after := A.Synced(db.apps, s, d, apps, at);
    forall key | key in after ensures HasPhone(db.devices, key.0) {
      A.UpsertAllKeys(db.apps, s, d, apps, at, key);
    }
  }

  lemma BeatKeepsInv(db: Db, d: DeviceId, status: Status, at: Moment)
    requires Inv(db) && MayCall(db, d)
    ensures Inv(Step(db, BeatOp(d, status, at)))
  {
    var after := Step(db, BeatOp(d, status, at));
    forall key | key in after.apps ensures HasPhone(after.devices, key.0) {
      assert HasPhone(db.devices, key.0);
      var e :| e in db.devices && Bound(db.devices[e]) && db.devices[e].subject == key.0;
      assert e in after.devices && Bound(after.devices[e]) && after.devices[e].subject == key.0;
    }
  }

  lemma StepKeepsInv(db: Db, op: Op)
    requires Inv(db) && FreshOp(db, op)
    ensures Inv(Step(db, op))
  {
    match op
    case CreateOp(s, at) => CreatedKeepsInv(db, s, at);
    case RemoveOp(s, at) => if Existing(db.subjects, s) { RemovedKeepsInv(db, s, at); }
    case IssueOp(s, candidates, at) =>
      if Existing(db.subjects, s) && Issuable(db, s, candidates, at).Some? {
        IssuedKeepsInv(db, s, Issuable(db, s, candidates, at).value, at);
      }
    case PairOp(code, binding, device, token, chain, at) =>
      if Pairable(db, code, at) {
        PairedKeepsInv(db, code, binding, device, token, chain, at);
      } else if code in db.codes {
        CountedKeepsInv(db, code);
      }
    case ReleaseOp(s, at) => if Existing(db.subjects, s) { UnboundKeepsInv(db, Holding(db.devices, s), at); }
    case LoginOp(user, token, chain, at) => TokensKeepInv(db, T.OpenOp(Some(user), None, chain, token, at));
    case RefreshOp(presented, token, at) => TokensKeepInv(db, T.RefreshOp(presented, token, at));
    case LogoutOp(presented, at) => TokensKeepInv(db, T.LogoutOp(presented, at));
    case RememberOp(_, _, _) => PushKeepsInv(db, op);
    case DropOp(_, _, _) => PushKeepsInv(db, op);
    case PruneOp(_, _) => PushKeepsInv(db, op);
    case SyncAppsOp(d, apps, at) => if MayCall(db, d) { SyncedKeepsInv(db, d, apps, at); }
    case BeatOp(d, status, at) => if MayCall(db, d) { BeatKeepsInv(db, d, status, at); }
  }

  function Run(db: Db, ops: seq<Op>): Db
    decreases |ops|
  {
    if ops == [] then db else Run(Step(db, ops[0]), ops[1..])
  }

  ghost predicate FreshRun(db: Db, ops: seq<Op>)
    decreases |ops|
  {
    ops == [] || (FreshOp(db, ops[0]) && FreshRun(Step(db, ops[0]), ops[1..]))
  }

  lemma {:induction false} RunKeepsInv(db: Db, ops: seq<Op>)
    requires Inv(db) && FreshRun(db, ops)
    ensures Inv(Run(db, ops))
    decreases |ops|
  {
    if ops == [] {
    } else {
      StepKeepsInv(db, ops[0]);
      RunKeepsInv(Step(db, ops[0]), ops[1..]);
    }
  }

  /** In every reachable state: bound devices match subjects and phones one to one; no bound device and
      no open code belongs to a deleted profile; an unbound device has no usable refresh token and
      no push address; a subject without a phone has no app list; and of each code row at most five
      attempts ever got past the burn check and at most one ended in a pairing, before the code expired. */
  lemma EveryReachableFleet(ops: seq<Op>)
    requires FreshRun(EMPTY, ops)
    ensures var db := Run(EMPTY, ops);
            && Matching(db.devices)
            && DevicesHaveOwners(db) && OpenCodesHaveOwners(db)
            && TokensBound(db) && PushBound(db) && AppsHeld(db)
            && (forall d, id, at :: d in db.devices && !Bound(db.devices[d])
                                    && id in db.tokens && db.tokens[id].device == Some(d)
                  ==> !T.Accepted(db.tokens, id, at))
            && (forall c :: c in db.codes ==> db.codes[c].passed <= 5 && db.codes[c].paired <= 1)
            && (forall c :: c in db.codes && db.codes[c].consumedAt.Some? ==>
                  db.codes[c].consumedAt.value < db.codes[c].expiresAt)
  {
    RunKeepsInv(EMPTY, ops);
  }

  // ---------------------------------------------------------------- token chains inside the fleet

  /** What a request does to the token table, as requests of that table alone. Pairing first revokes the
      tokens of the displaced devices and then opens a chain. */
  function TokenOps(db: Db, op: Op): seq<T.Op> {
    match op
    case PairOp(code, binding, device, token, chain, at) =>
      if Pairable(db, code, at) then
        [T.UnbindOp(Conflicting(db.devices, db.codes[code].subject, binding), at),
         T.OpenOp(None, Some(device), chain, token, at)]
      else []
    case RemoveOp(s, at) => if Existing(db.subjects, s) then [T.UnbindOp(Holding(db.devices, s), at)] else []
    case ReleaseOp(s, at) => if Existing(db.subjects, s) then [T.UnbindOp(Holding(db.devices, s), at)] else []
    case LoginOp(user, token, chain, at) => [T.OpenOp(Some(user), None, chain, token, at)]
    case RefreshOp(presented, token, at) => [T.RefreshOp(presented, token, at)]
    case LogoutOp(presented, at) => [T.LogoutOp(presented, at)]
    case _ => []
  }

  function TokenRun(db: Db, ops: seq<Op>): seq<T.Op>
    decreases |ops|
  {
    if ops == [] then [] else TokenOps(db, ops[0]) + TokenRun(Step(db, ops[0]), ops[1..])
  }

  predicate Advancing(clock: Moment, ops: seq<Op>)
    decreases |ops|
  {
    ops == [] ||
    (clock <= ops[0].at && (ops[0].RefreshOp? ==> clock < ops[0].at) && Advancing(ops[0].at, ops[1..]))
  }

  function Last(clock: Moment, ops: seq<Op>): Moment {
    if ops == [] then clock else ops[|ops| - 1].at
  }

  lemma PairingIsTokenRun(db: Db, op: Op)
    requires op.PairOp? && Pairable(db, op.code, op.at) && FreshOp(db, op)
    ensures T.Run(db.tokens, TokenOps(db, op)) == Step(db, op).tokens
    ensures T.FreshRun(db.tokens, TokenOps(db, op)) && T.Advancing(op.at, TokenOps(db, op))
  {
    var ops := TokenOps(db, op);
    var revoked := T.Step(db.tokens, ops[0]);
    assert ops[1..] == [ops[1]] && [ops[1]][1..] == [];
    assert T.Run(T.Step(revoked, ops[1]), []) == Step(db, op).tokens;
    assert T.FreshOp(revoked, ops[1]);
    assert T.FreshRun(T.Step(revoked, ops[1]), []) && T.Advancing(op.at, [ops[1]]);
  }

  lemma StepIsTokenRun(db: Db, clock: Moment, op: Op)
    requires FreshOp(db, op) && clock <= op.at && (op.RefreshOp? ==> clock < op.at)
    ensures T.Run(db.tokens, TokenOps(db, op)) == Step(db, op).tokens
    ensures T.FreshRun(db.tokens, TokenOps(db, op)) && T.Advancing(clock, TokenOps(db, op))
    ensures T.Last(clock, TokenOps(db, op)) <= op.at
  {
    var ops := TokenOps(db, op);
    if op.PairOp? && Pairable(db, op.code, op.at) {
      PairingIsTokenRun(db, op);
    } else if ops != [] {
      assert ops == [ops[0]] && ops[1..] == [];
      assert T.Run(T.Step(db.tokens, ops[0]), []) == Step(db, op).tokens;
      assert T.FreshRun(T.Step(db.tokens, ops[0]), []) && T.Advancing(op.at, []);
    } else {
      assert Step(db, op).tokens == db.tokens;
    }
  }

  /** A run of the fleet is, on the token table, a run of that table: whatever is proved of every run of the
      token table holds in the fleet. */
  lemma {:induction false} RunIsTokenRun(db: Db, clock: Moment, ops: seq<Op>)
    requires FreshRun(db, ops) && Advancing(clock, ops)
    ensures T.Run(db.tokens, TokenRun(db, ops)) == Run(db, ops).tokens
    ensures T.FreshRun(db.tokens, TokenRun(db, ops)) && T.Advancing(clock, TokenRun(db, ops))
    ensures T.Last(clock, TokenRun(db, ops)) <= Last(clock, ops)
    decreases |ops|
  {
    if ops == [] {
    } else {
      var first := TokenOps(db, ops[0]);
      var rest := TokenRun(Step(db, ops[0]), ops[1..]);
      StepIsTokenRun(db, clock, ops[0]);
      RunIsTokenRun(Step(db, ops[0]), ops[0].at, ops[1..]);
      T.RunThen(db.tokens, clock, first, ops[0].at, rest);
    }
  }

  /** So chains keep their invariant, and no token row is ever deleted or brought back. */
  lemma RunKeepsChains(db: Db, clock: Moment, ops: seq<Op>)
    requires T.Inv(db.tokens, clock) && Advancing(clock, ops) && FreshRun(db, ops)
    ensures T.Inv(Run(db, ops).tokens, Last(clock, ops)) && T.Evolves(db.tokens, Run(db, ops).tokens)
  {
    RunIsTokenRun(db, clock, ops);
    T.RunKeepsInv(db.tokens, clock, TokenRun(db, ops));
  }

  /** A token whose replacement was used is refused for good, whatever happens to phones and profiles. */
  lemma ReplacedTokenStaysDead(db: Db, clock: Moment, ops: seq<Op>, parent: T.TokenId, successor: T.TokenId, at: Moment)
    requires T.Inv(db.tokens, clock) && Advancing(clock, ops) && FreshRun(db, ops)
    requires successor in db.tokens && db.tokens[successor].parent == Some(parent) && db.tokens[successor].usedAt.Some?
    ensures !T.Accepted(Run(db, ops).tokens, parent, at)
  {
    RunIsTokenRun(db, clock, ops);
    T.ReplacedTokenIsDead(db.tokens, clock, TokenRun(db, ops), parent, successor, at);
  }

  /** The sessions of a phone end with its binding: once it is unbound, in every later state none of its
      tokens is accepted and its chains have got no further token. */
  lemma UnboundForGood(db: Db, clock: Moment, ops: seq<Op>, d: DeviceId, id: T.TokenId, at: Moment)
    requires Inv(db) && T.Inv(db.tokens, clock) && Advancing(clock, ops) && FreshRun(db, ops)
    requires d in db.devices && !Bound(db.devices[d]) && id in db.tokens && db.tokens[id].device == Some(d)
    ensures var later := Run(db, ops).tokens;
            && T.Dead(later, db.tokens[id].chain)
            && !T.Accepted(later, id, at)
            && forall other :: other in later && later[other].chain == db.tokens[id].chain ==> other in db.tokens
  {
    var chain := db.tokens[id].chain;
    assert T.Dead(db.tokens, chain) by {
      forall other | other in db.tokens && db.tokens[other].chain == chain ensures db.tokens[other].revokedAt.Some? {
        assert db.tokens[other].device == Some(d);
      }
    }
    RunIsTokenRun(db, clock, ops);
    T.DeadChainNeverMints(db.tokens, TokenRun(db, ops), chain, id);
  }

  // ---------------------------------------------------------------- what one request achieves

  /** A successful pairing hands the phone over completely: the subject holds exactly the new device, the
      phone serves no other profile, the code is spent, and no session of a displaced device is accepted. */
  lemma PairingHandsOver(db: Db, code: CodeText, binding: Binding, device: DeviceId, token: T.TokenId,
          chain: T.Chain, at: Moment, former: DeviceId, id: T.TokenId, later: Moment)
    requires Inv(db) && Pairable(db, code, at) && FreshOp(db, PairOp(code, binding, device, token, chain, at))
    ensures var s := db.codes[code].subject;
            var after := Paired(db, code, binding, device, token, chain, at);
            && Holding(after.devices, s) == {device}
            && Conflicting(after.devices, s, binding) == {device}
            && Existing(after.subjects, s)
            && !Pairable(after, code, later)
            && (at <= later < at + T.REFRESH_TTL ==> T.Accepted(after.tokens, token, later))
            && (former in Conflicting(db.devices, s, binding) && id in db.tokens && db.tokens[id].device == Some(former)
                ==> !T.Accepted(after.tokens, id, later))
  {
    PairedKeepsInv(db, code, binding, device, token, chain, at);
    DisplaceMakesRoom(Counted(db, code), db.codes[code].subject, binding, at);
  }

  lemma StepKeepsDeleted(db: Db, op: Op, s: SubjectId)
    requires FreshOp(db, op) && s in db.subjects && db.subjects[s].Some?
    ensures s in Step(db, op).subjects && Step(db, op).subjects[s].Some?
  {
  }

  lemma {:induction false} RunKeepsDeleted(db: Db, ops: seq<Op>, s: SubjectId)
    requires FreshRun(db, ops) && s in db.subjects && db.subjects[s].Some?
    ensures s in Run(db, ops).subjects && Run(db, ops).subjects[s].Some?
    decreases |ops|
  {
    if ops == [] {
    } else {
      StepKeepsDeleted(db, ops[0], s);
      RunKeepsDeleted(Step(db, ops[0]), ops[1..], s);
    }
  }

  /** Removing a profile shuts every door to it for good: whatever happens afterwards it has no phone, no
      app list and no code that pairs, and no session of any phone it ever had is accepted. */
  lemma RemovalIsFinal(db: Db, s: SubjectId, at: Moment, afterwards: seq<Op>, code: CodeText, d: DeviceId,
                       id: T.TokenId, later: Moment)
    requires Inv(db) && s in db.subjects && FreshRun(Step(db, RemoveOp(s, at)), afterwards)
    ensures var after := Run(Step(db, RemoveOp(s, at)), afterwards);
            && Holding(after.devices, s) == {}
            && (code in after.codes && after.codes[code].subject == s ==> !Pairable(after, code, later))
            && (MayCall(after, d) ==> after.devices[d].subject != s)
            && (forall key :: key in after.apps ==> key.0 != s)
            && (d in after.devices && after.devices[d].subject == s && id in after.tokens
                && after.tokens[id].device == Some(d) ==>
                  !T.Accepted(after.tokens, id, later))
  {
    StepKeepsInv(db, RemoveOp(s, at));
    RunKeepsInv(Step(db, RemoveOp(s, at)), afterwards);
    RunKeepsDeleted(Step(db, RemoveOp(s, at)), afterwards, s);
    var after := Run(Step(db, RemoveOp(s, at)), afterwards);
    forall e ensures e !in Holding(after.devices, s) {
      assert e in after.devices && Bound(after.devices[e]) ==> Existing(after.subjects, after.devices[e].subject);
    }
    forall key | key in after.apps ensures key.0 != s {
      assert HasPhone(after.devices, key.0);
    }
  }

  // ---------------------------------------------------------------- attempts on one code row

  /** A refused pairing rolls back all but the attempt it counted. */
  lemma RefusalStillCounts(db: Db, code: CodeText, binding: Binding, device: DeviceId, token: T.TokenId,
          chain: T.Chain, at: Moment)
    requires Inv(db) && code in db.codes && !Pairable(db, code, at)
    ensures var after := Step(db, PairOp(code, binding, device, token, chain, at));
            && after == db.(codes := after.codes)
            && after.codes == db.codes[code := after.codes[code]]
            && after.codes[code].attempts == db.codes[code].attempts + 1
            && after.codes[code].consumedAt == db.codes[code].consumedAt
  {
  }

  predicate Tries(op: Op, code: CodeText) {
    op.PairOp? && op.code == code
  }

  function Attempts(ops: seq<Op>, code: CodeText): nat {
    if ops == [] then 0 else (if Tries(ops[0], code) then 1 else 0) + Attempts(ops[1..], code)
  }

  /** Nothing removes the row: its profile is neither deleted nor given a new code. */
  predicate KeepsRow(ops: seq<Op>, s: SubjectId) {
    forall i :: 0 <= i < |ops| && (ops[i].RemoveOp? || ops[i].IssueOp?) ==> ops[i].subject != s
  }

  lemma AttemptByPairing(db: Db, tried: CodeText, binding: Binding, device: DeviceId, token: T.TokenId,
          chain: T.Chain, at: Moment, code: CodeText)
    requires code in db.codes && tried in db.codes
    ensures var after := Step(db, PairOp(tried, binding, device, token, chain, at));
            && code in after.codes
            && after.codes[code].subject == db.codes[code].subject
            && after.codes[code].attempts == db.codes[code].attempts + (if tried == code then 1 else 0)
  {
  }

  lemma RowKeptByOthers(db: Db, op: Op, code: CodeText)
    requires code in db.codes && !op.PairOp?
    requires op.RemoveOp? || op.IssueOp? ==> op.subject != db.codes[code].subject
    ensures code in Step(db, op).codes && Step(db, op).codes[code] == db.codes[code]
  {
    if op.IssueOp? || op.RemoveOp? {
      assert code in WithoutOpenCodes(db.codes, op.subject);
    }
  }

  lemma {:induction false} AttemptStep(db: Db, op: Op, code: CodeText)
    requires code in db.codes
    requires op.RemoveOp? || op.IssueOp? ==> op.subject != db.codes[code].subject
    ensures code in Step(db, op).codes
    ensures Step(db, op).codes[code].subject == db.codes[code].subject
    ensures Step(db, op).codes[code].attempts == db.codes[code].attempts + (if Tries(op, code) then 1 else 0)
  {
    if !op.PairOp? {
      RowKeptByOthers(db, op, code);
    } else if op.code in db.codes {
      AttemptByPairing(db, op.code, op.binding, op.device, op.token, op.chain, op.at, code);
    }
  }

  /** Guessing is bounded however it is spread: the count of a row is the number of tries made on it, so
      once five have been made, whoever made them and whatever else happened, no later try pairs. */
  lemma {:induction false} AttemptsAddUp(db: Db, ops: seq<Op>, code: CodeText, at: Moment)
    requires code in db.codes && KeepsRow(ops, db.codes[code].subject)
    ensures code in Run(db, ops).codes
    ensures Run(db, ops).codes[code].attempts == db.codes[code].attempts + Attempts(ops, code)
    ensures db.codes[code].attempts + Attempts(ops, code) >= MAX_ATTEMPTS ==> !Pairable(Run(db, ops), code, at)
    decreases |ops|
  {
    if ops == [] {
    } else {
      AttemptStep(db, ops[0], code);
      AttemptsAddUp(Step(db, ops[0]), ops[1..], code, at);
    }
  }

  // ---------------------------------------------------------------- the life of one code

  /** Whether one of the tries pairs, told from the list of requests alone: the first five tries count, and the
      first of them that comes before the expiry pairs. */
  predicate SomeTryPairs(ops: seq<Op>, code: CodeText, expiry: Moment, tried: nat)
    decreases |ops|
  {
    ops != [] &&
    if Tries(ops[0], code)
    then (tried < 5 && ops[0].at < expiry) || SomeTryPairs(ops[1..], code, expiry, tried + 1)
    else SomeTryPairs(ops[1..], code, expiry, tried)
  }

  /** The code table after a try, whatever else the try did. */
  lemma CodesAfterTry(db: Db, op: Op)
    requires op.PairOp? && op.code in db.codes
    ensures var row := db.codes[op.code];
            var counted := Counted(db, op.code).codes[op.code];
            Step(db, op).codes == db.codes[op.code :=
              if Pairable(db, op.code, op.at) then counted.(consumedAt := Some(op.at), paired := counted.paired + 1)
              else counted]
  {
  }

  lemma TryDecides(db: Db, op: Op, code: CodeText)
    requires code in db.codes && op.PairOp?
    ensures var after := Step(db, op).codes;
            && code in after
            && after[code].expiresAt == db.codes[code].expiresAt
            && (after[code].consumedAt.Some? <==>
                || db.codes[code].consumedAt.Some?
                || (op.code == code && db.codes[code].attempts < 5 && op.at < db.codes[code].expiresAt))
  {
    if op.code in db.codes {
      CodesAfterTry(db, op);
    }
  }

  lemma {:induction false} CodeFate(db: Db, ops: seq<Op>, code: CodeText)
    requires code in db.codes && KeepsRow(ops, db.codes[code].subject)
    ensures code in Run(db, ops).codes
    ensures Run(db, ops).codes[code].expiresAt == db.codes[code].expiresAt
    ensures Run(db, ops).codes[code].consumedAt.Some? <==>
            || db.codes[code].consumedAt.Some?
            || SomeTryPairs(ops, code, db.codes[code].expiresAt, db.codes[code].attempts)
    decreases |ops|
  {
    if ops == [] {
    } else {
      AttemptStep(db, ops[0], code);
      if ops[0].PairOp? {
        TryDecides(db, ops[0], code);
      } else {
        RowKeptByOthers(db, ops[0], code);
      }
      CodeFate(Step(db, ops[0]), ops[1..], code);
    }
  }

  lemma {:induction false} FirstFreeIsCandidate(codes: map<CodeText, Code>, candidates: seq<CodeText>, at: Moment)
    ensures FirstFree(codes, candidates, at).Some? ==> FirstFree(codes, candidates, at).value in candidates
    decreases |candidates|
  {
    if candidates == [] {
    } else {
      FirstFreeIsCandidate(codes, candidates[1..], at);
    }
  }

  lemma IssuedRow(db: Db, s: SubjectId, candidates: seq<CodeText>, at: Moment)
    requires Existing(db.subjects, s) && Issuable(db, s, candidates, at).Some?
    ensures var code := Issuable(db, s, candidates, at).value;
            var after := Step(db, IssueOp(s, candidates, at)).codes;
            && code in candidates && code in after
            && after[code] == Code(s, at + 600 * SECOND, None, 0, 0, 0)
            && (forall c :: c in after && c != code && after[c].subject == s ==> after[c].consumedAt.Some?)
            && (forall c :: c in db.codes && (db.codes[c].subject != s || db.codes[c].consumedAt.Some?) ==>
                  c in after && after[c] == db.codes[c])
  {
    FirstFreeIsCandidate(WithoutOpenCodes(db.codes, s), candidates, at);
  }

  /** The whole life of a pairing code, as long as its profile is neither deleted nor given another: whatever
      happens meanwhile, it pairs if and only if it is presented less than ten minutes after it was issued,
      fewer than five tries came before, and none of them paired. */
  lemma CodeLife(db: Db, s: SubjectId, candidates: seq<CodeText>, issued: Moment, ops: seq<Op>, at: Moment)
    requires Existing(db.subjects, s) && Issuable(db, s, candidates, issued).Some? && KeepsRow(ops, s)
    ensures var code := Issuable(db, s, candidates, issued).value;
            var after := Run(Step(db, IssueOp(s, candidates, issued)), ops);
            Pairable(after, code, at) <==>
            && at < issued + 600 * SECOND
            && Attempts(ops, code) < 5
            && !SomeTryPairs(ops, code, issued + 600 * SECOND, 0)
  {
    var code := Issuable(db, s, candidates, issued).value;
    var begun := Step(db, IssueOp(s, candidates, issued));
    IssuedRow(db, s, candidates, issued);
    CodeFate(begun, ops, code);
    AttemptsAddUp(begun, ops, code, at);
  }

  // ---------------------------------------------------------------- what is left alone

  /** Unbinding some devices touches their rows, their tokens, their push addresses and their subjects' app
      lists, and nothing else. */
  lemma UnboundTouchesOnly(db: Db, ids: set<DeviceId>, at: Moment)
    ensures var after := Unbound(db, ids, at);
            && after.subjects == db.subjects && after.codes == db.codes
            && (forall d :: d in db.devices <==> d in after.devices)
            && (forall d :: d in db.devices ==>
                  after.devices[d] == if d in ids then db.devices[d].(unboundAt := Some(at)) else db.devices[d])
            && (forall id :: id in db.tokens <==> id in after.tokens)
            && (forall id :: id in db.tokens && (db.tokens[id].device == None || db.tokens[id].device.value !in ids) ==>
                  after.tokens[id] == db.tokens[id])
            && (forall p :: p in db.push <==> p in after.push)
            && (forall p :: p in db.push && (db.push[p].device == None || db.push[p].device.value !in ids) ==>
                  after.push[p] == db.push[p])
            && (forall key :: key in after.apps ==> key in db.apps && after.apps[key] == db.apps[key])
            && (forall key :: key in db.apps && key.0 !in SubjectsOf(db.devices, ids) ==> key in after.apps)
  {
  }

  /** Requests that do not end a phone's session: they pair neither its subject nor its binding, remove or
      release neither, and present and log out no token of its chain. */
  predicate Spares(db: Db, op: Op, d: DeviceId, chain: T.Chain)
    requires d in db.devices
  {
    match op
    case PairOp(code, binding, _, _, _, at) =>
      Pairable(db, code, at) ==> db.devices[d].subject != db.codes[code].subject && db.devices[d].binding != binding
    case RemoveOp(s, _) => s != db.devices[d].subject
    case ReleaseOp(s, _) => s != db.devices[d].subject
    case RefreshOp(presented, _, _) => presented in db.tokens ==> db.tokens[presented].chain != chain
    case LogoutOp(presented, _) => presented in db.tokens ==> db.tokens[presented].chain != chain
    case _ => true
  }

  ghost predicate Session(db: Db, d: DeviceId, chain: T.Chain) {
    && d in db.devices && Bound(db.devices[d])
    && (exists id :: id in db.tokens && db.tokens[id].chain == chain)
    && (forall id :: id in db.tokens && db.tokens[id].chain == chain ==> db.tokens[id].device == Some(d))
  }

  lemma StepSparesChain(db: Db, op: Op, d: DeviceId, chain: T.Chain)
    requires FreshOp(db, op) && Session(db, d, chain) && Spares(db, op, d, chain)
    ensures T.SameChain(db.tokens, Step(db, op).tokens, chain)
  {
    match op
    case PairOp(code, binding, device, token, c, at) =>
      if Pairable(db, code, at) {
        var ids := Conflicting(db.devices, db.codes[code].subject, binding);
        T.StepLeavesChain(db.tokens, T.UnbindOp(ids, at), chain);
        var revoked := T.RevokeDevices(db.tokens, ids, at);
        T.StepLeavesChain(revoked, T.OpenOp(None, Some(device), c, token, at), chain);
      }
    case RemoveOp(s, at) => T.StepLeavesChain(db.tokens, T.UnbindOp(Holding(db.devices, s), at), chain);
    case ReleaseOp(s, at) => T.StepLeavesChain(db.tokens, T.UnbindOp(Holding(db.devices, s), at), chain);
    case LoginOp(user, token, c, at) => T.StepLeavesChain(db.tokens, T.OpenOp(Some(user), None, c, token, at), chain);
    case RefreshOp(presented, token, at) => T.StepLeavesChain(db.tokens, T.RefreshOp(presented, token, at), chain);
    case LogoutOp(presented, at) => T.StepLeavesChain(db.tokens, T.LogoutOp(presented, at), chain);
    case _ =>
  }

  lemma StepSparesDevice(db: Db, op: Op, d: DeviceId, chain: T.Chain)
    requires FreshOp(db, op) && Session(db, d, chain) && Spares(db, op, d, chain)
    ensures d in Step(db, op).devices && Bound(Step(db, op).devices[d])
    ensures Step(db, op).devices[d].subject == db.devices[d].subject
    ensures Step(db, op).devices[d].binding == db.devices[d].binding
  {
  }

  ghost predicate AllSpare(db: Db, ops: seq<Op>, d: DeviceId, chain: T.Chain)
    decreases |ops|
  {
    ops == [] || (d in db.devices && Spares(db, ops[0], d, chain) && AllSpare(Step(db, ops[0]), ops[1..], d, chain))
  }

  /** Other people's requests never end a phone's session: as long as nobody pairs, removes or releases its
      subject or its phone and no token of its chain is presented or logged out, it stays bound to its
      subject, and its tokens stay exactly as they are. */
  lemma {:induction false} SessionStands(db: Db, ops: seq<Op>, d: DeviceId, chain: T.Chain, id: T.TokenId, at: Moment)
    requires FreshRun(db, ops) && Session(db, d, chain) && AllSpare(db, ops, d, chain)
    ensures Session(Run(db, ops), d, chain) && T.SameChain(db.tokens, Run(db, ops).tokens, chain)
    ensures Run(db, ops).devices[d].subject == db.devices[d].subject
    ensures id in db.tokens && db.tokens[id].chain == chain ==>
              (T.Accepted(Run(db, ops).tokens, id, at) <==> T.Accepted(db.tokens, id, at))
    decreases |ops|
  {
    if ops == [] {
    } else {
      StepSparesChain(db, ops[0], d, chain);
      StepSparesDevice(db, ops[0], d, chain);
      SessionStands(Step(db, ops[0]), ops[1..], d, chain, id, at);
      T.SameChainAccepts(db.tokens, Run(db, ops).tokens, chain, id, at);
    }
  }

  // ---------------------------------------------------------------- issuing

  /** A candidate no unexpired code uses. */
  predicate Unused(codes: map<CodeText, Code>, c: CodeText, at: Moment) {
    c in codes ==> codes[c].expiresAt <= at
  }

  /** Drawing stops at the first candidate that no unexpired code uses, and fails only when there is none. */
  lemma {:induction false} FirstFreeExactly(codes: map<CodeText, Code>, candidates: seq<CodeText>, at: Moment)
    returns (k: nat)
    ensures k <= |candidates| && forall j :: 0 <= j < k ==> !Unused(codes, candidates[j], at)
    ensures k < |candidates| ==>
              Unused(codes, candidates[k], at) && FirstFree(codes, candidates, at) == Some(candidates[k])
    ensures k == |candidates| ==> FirstFree(codes, candidates, at) == None
    decreases |candidates|
  {
    if candidates == [] || Unused(codes, candidates[0], at) {
      k := 0;
    } else {
      k := FirstFreeExactly(codes, candidates[1..], at);
      k := k + 1;
    }
  }

  // ---------------------------------------------------------------- push addresses

  /** The address delivers to the caller. */
  predicate Delivers(db: Db, p: PushText, caller: Caller) {
    p in db.push && db.push[p].revokedAt == None && Owns(caller, db.push[p])
  }

  /** The address is registered to the caller alone. */
  predicate RegisteredTo(db: Db, p: PushText, caller: Caller) {
    p in db.push && db.push[p] == PushToken(UserOf(caller), DeviceOf(caller), None)
  }

  /** Registering takes an address over, dropping needs ownership, pruning names its victims, and none of the
      three touches another address. */
  lemma PushRequests(db: Db, caller: Caller, p: PushText, dead: set<PushText>, at: Moment, other: PushText)
    requires CallerPasses(db, caller)
    ensures var after := Step(db, RememberOp(caller, p, at));
            && Delivers(after, p, caller) && RegisteredTo(after, p, caller)
            && (forall who :: Delivers(after, p, who) ==> who == caller)
            && (other != p ==> (other in after.push <==> other in db.push))
            && (other != p && other in db.push ==> after.push[other] == db.push[other])
    ensures var after := Step(db, DropOp(caller, p, at));
            && !Delivers(after, p, caller)
            && (!Delivers(db, p, caller) ==> after == db)
            && (other != p && other in db.push ==> other in after.push && after.push[other] == db.push[other])
    ensures var after := Step(db, PruneOp(dead, at));
            && (p in dead ==> !Delivers(after, p, caller))
            && (p !in dead && p in db.push ==> p in after.push && after.push[p] == db.push[p])
  {
  }

  /** Requests that leave a delivering address alone. */
  predicate SparesAddress(db: Db, op: Op, p: PushText, caller: Caller) {
    match op
    case RememberOp(_, q, _) => q != p
    case DropOp(who, q, _) => q != p || who != caller
    case PruneOp(dead, _) => p !in dead
    case PairOp(code, binding, _, _, _, at) =>
      Pairable(db, code, at) && caller.DeviceCaller? && caller.device in db.devices ==>
        db.devices[caller.device].subject != db.codes[code].subject && db.devices[caller.device].binding != binding
    case RemoveOp(s, _) =>
      caller.DeviceCaller? && caller.device in db.devices ==> db.devices[caller.device].subject != s
    case ReleaseOp(s, _) =>
      caller.DeviceCaller? && caller.device in db.devices ==> db.devices[caller.device].subject != s
    case _ => true
  }

  ghost predicate AllSpareAddress(db: Db, ops: seq<Op>, p: PushText, caller: Caller)
    decreases |ops|
  {
    ops == [] ||
    (SparesAddress(db, ops[0], p, caller) && AllSpareAddress(Step(db, ops[0]), ops[1..], p, caller))
  }

  lemma StepSparesAddress(db: Db, op: Op, p: PushText, caller: Caller)
    requires FreshOp(db, op) && RegisteredTo(db, p, caller) && SparesAddress(db, op, p, caller)
    ensures RegisteredTo(Step(db, op), p, caller)
  {
  }

  /** An address delivers to whoever registered it last until that caller drops it, the delivery service
      disowns it, or the phone is unbound; other callers cannot take the delivery away but by registering
      the address themselves. */
  lemma {:induction false} AddressStays(db: Db, ops: seq<Op>, p: PushText, caller: Caller)
    requires FreshRun(db, ops) && RegisteredTo(db, p, caller) && AllSpareAddress(db, ops, p, caller)
    ensures RegisteredTo(Run(db, ops), p, caller) && Delivers(Run(db, ops), p, caller)
    decreases |ops|
  {
    if ops == [] {
    } else {
      StepSparesAddress(db, ops[0], p, caller);
      AddressStays(Step(db, ops[0]), ops[1..], p, caller);
    }
  }

  // ---------------------------------------------------------------- what a phone reports

  /** A heartbeat records its status and its time on its own row and nothing else. */
  lemma BeatIsRecorded(db: Db, d: DeviceId, status: Status, at: Moment)
    requires MayCall(db, d)
    ensures var after := Step(db, BeatOp(d, status, at));
            && d in after.devices && after.devices[d].status == status && after.devices[d].lastHeartbeat == at
            && after.devices[d] == db.devices[d].(status := status, lastHeartbeat := at)
            && after == db.(devices := db.devices[d := after.devices[d]])
  {
  }

  /** What a phone reports becomes what its subject is known to hold, and other subjects' lists stay. */
  lemma AppsAreReported(db: Db, d: DeviceId, apps: seq<A.App>, at: Moment)
    requires MayCall(db, d) && A.DistinctPackages(apps)
    ensures var after := Step(db, SyncAppsOp(d, apps, at));
            && A.Known(after.apps, db.devices[d].subject) == A.Packages(apps)
            && (forall key: (SubjectId, A.Package) :: key.0 != db.devices[d].subject ==>
                  (key in after.apps <==> key in db.apps) && (key in db.apps ==> after.apps[key] == db.apps[key]))
            && after == db.(apps := after.apps)
  {
    A.SyncedIsReported(db.apps, db.devices[d].subject, d, apps, at);
  }

  // ---------------------------------------------------------------- who may call, and profiles

  /** In every reachable fleet a device may call exactly while it is bound; and never for a deleted profile,
      reachable or not. */
  lemma MayCallExactly(db: Db, d: DeviceId)
    ensures MayCall(db, d) ==>
              d in db.devices && db.devices[d].unboundAt == None && Existing(db.subjects, db.devices[d].subject)
    ensures Inv(db) ==> (MayCall(db, d) <==> d in db.devices && db.devices[d].unboundAt == None)
  {
  }

  /** A created profile exists, a removed one is dated and exists no more, and other profiles stay. */
  lemma ProfileLife(db: Db, s: SubjectId, at: Moment, other: SubjectId)
    ensures Existing(Step(db, CreateOp(s, at)).subjects, s)
    ensures Existing(db.subjects, s) ==> Step(db, RemoveOp(s, at)).subjects == db.subjects[s := Some(at)]
    ensures other != s ==>
              && (Existing(Step(db, CreateOp(s, at)).subjects, other) <==> Existing(db.subjects, other))
              && (Existing(Step(db, RemoveOp(s, at)).subjects, other) <==> Existing(db.subjects, other))
  {
  }
}
