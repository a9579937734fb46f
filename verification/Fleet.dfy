/** Who holds which phone: subjects, pairing codes, devices, and everything that hangs off a device
    (app/routers/families.py, app/services/devices.py, pairing.py, push.py). */
module Fleet {
  import opened Base
  import opened Rules
  import T = Tokens
  import A = Apps

  type Binding = int
  type CodeText = int
  type PushText = int

  datatype Status = Ok | Degraded | Disabled | Unknown

  /** A device row only ever comes from pairing, which stamps its first heartbeat. */
  datatype Device = Device(
    subject: SubjectId, binding: Binding, status: Status, lastHeartbeat: Moment, unboundAt: Option<Moment>)

  /** A pairing code. `passed` and `paired` record what became of its attempts; the table keeps only
      the attempt count. */
  datatype Code = Code(
    subject: SubjectId, expiresAt: Moment, consumedAt: Option<Moment>, attempts: nat, passed: nat, paired: nat)

  datatype PushToken = PushToken(user: Option<UserId>, device: Option<DeviceId>, revokedAt: Option<Moment>)

  /** Subjects map to their deletion stamp. */
  datatype Db = Db(
    subjects: map<SubjectId, Option<Moment>>, devices: map<DeviceId, Device>, codes: map<CodeText, Code>,
    tokens: T.Table, push: map<PushText, PushToken>, apps: A.Inventory)

  const EMPTY := Db(map[], map[], map[], map[], map[], map[])

  const MAX_ATTEMPTS := 5
  const PAIRING_TTL := 600 * SECOND
  const CODE_TRIES := 5

  // ---------------------------------------------------------------- reading

  predicate Bound(d: Device) {
    d.unboundAt == None
  }

  predicate Existing(subjects: map<SubjectId, Option<Moment>>, s: SubjectId) {
    s in subjects && subjects[s] == None
  }

  /** The check every request made with a device's access token passes first. */
  predicate MayCall(db: Db, d: DeviceId) {
    d in db.devices && Bound(db.devices[d]) && Existing(db.subjects, db.devices[d].subject)
  }

  function Conflicting(devices: map<DeviceId, Device>, s: SubjectId, b: Binding): set<DeviceId> {
    set d | d in devices && Bound(devices[d]) && (devices[d].subject == s || devices[d].binding == b)
  }

  function Holding(devices: map<DeviceId, Device>, s: SubjectId): set<DeviceId> {
    set d | d in devices && Bound(devices[d]) && devices[d].subject == s
  }

  function SubjectsOf(devices: map<DeviceId, Device>, ids: set<DeviceId>): set<SubjectId> {
    set d | d in ids && d in devices :: devices[d].subject
  }

  predicate Burned(attempts: nat) {
    attempts > MAX_ATTEMPTS
  }

  // ---------------------------------------------------------------- writing, as functions on tables

  function RevokePush(push: map<PushText, PushToken>, ids: set<DeviceId>, at: Moment): map<PushText, PushToken> {
    map p | p in push ::
      if push[p].device.Some? && push[p].device.value in ids && push[p].revokedAt == None
      then push[p].(revokedAt := Some(at)) else push[p]
  }

  function ForgetAll(apps: A.Inventory, subjects: set<SubjectId>): A.Inventory {
    map key | key in apps && key.0 !in subjects :: apps[key]
  }

  /** Unbinding a device takes its tokens, its push address and its subject's app list with it. */
  function Unbound(db: Db, ids: set<DeviceId>, at: Moment): Db {
    db.(devices := map d | d in db.devices :: if d in ids then db.devices[d].(unboundAt := Some(at)) else db.devices[d],
        tokens := T.RevokeDevices(db.tokens, ids, at),
        push := RevokePush(db.push, ids, at),
        apps := ForgetAll(db.apps, SubjectsOf(db.devices, ids)))
  }

  function WithoutOpenCodes(codes: map<CodeText, Code>, s: SubjectId): map<CodeText, Code> {
    map c | c in codes && !(codes[c].subject == s && codes[c].consumedAt == None) :: codes[c]
  }

  /** The first candidate that no unexpired code already uses. */
  function FirstFree(codes: map<CodeText, Code>, candidates: seq<CodeText>, at: Moment): Option<CodeText> {
    if candidates == [] then None
    else if candidates[0] in codes && codes[candidates[0]].expiresAt > at then FirstFree(codes, candidates[1..], at)
    else Some(candidates[0])
  }

  /** The new code, unless none is free or the free one collides with an expired row still in the table. */
  function Issuable(db: Db, s: SubjectId, candidates: seq<CodeText>, at: Moment): Option<CodeText> {
    var codes := WithoutOpenCodes(db.codes, s);
    var code := FirstFree(codes, candidates, at);
    if code.Some? && code.value !in codes then code else None
  }

  function Issued(db: Db, s: SubjectId, code: CodeText, at: Moment): Db {
    db.(codes := WithoutOpenCodes(db.codes, s)[code := Code(s, at + PAIRING_TTL, None, 0, 0, 0)])
  }

  /** The attempt counter commits on its own connection, before anything else is decided. */
  function Counted(db: Db, code: CodeText): Db
    requires code in db.codes
  {
    var row := db.codes[code];
    var passed := if Burned(row.attempts + 1) then row.passed else row.passed + 1;
    db.(codes := db.codes[code := row.(attempts := row.attempts + 1, passed := passed)])
  }

  predicate Pairable(db: Db, code: CodeText, at: Moment) {
    && code in db.codes
    && !Burned(db.codes[code].attempts + 1)
    && db.codes[code].consumedAt == None
    && db.codes[code].expiresAt > at
  }

  function Paired(db: Db, code: CodeText, binding: Binding, device: DeviceId, token: T.TokenId, chain: T.Chain,
          at: Moment): Db
    requires Pairable(db, code, at)
  {
    var counted := Counted(db, code);
    var row := counted.codes[code];
    var cleared := Unbound(counted, Conflicting(db.devices, row.subject, binding), at);
    cleared.(devices := cleared.devices[device := Device(row.subject, binding, Unknown, at, None)],
             codes := cleared.codes[code := row.(consumedAt := Some(at), paired := row.paired + 1)],
             tokens := T.Opened(cleared.tokens, None, Some(device), chain, token, at))
  }

  function Removed(db: Db, s: SubjectId, at: Moment): Db {
    var released := Unbound(db, Holding(db.devices, s), at);
    released.(subjects := db.subjects[s := Some(at)], codes := WithoutOpenCodes(db.codes, s))
  }

  /** Who asks for notifications: a user session, or a bound device. */
  datatype Caller = UserCaller(user: UserId) | DeviceCaller(device: DeviceId)

  predicate CallerPasses(db: Db, caller: Caller) {
    caller.DeviceCaller? ==> MayCall(db, caller.device)
  }

  function UserOf(caller: Caller): Option<UserId> {
    match caller
    case UserCaller(u) => Some(u)
    case DeviceCaller(_) => None
  }

  function DeviceOf(caller: Caller): Option<DeviceId> {
    match caller
    case UserCaller(_) => None
    case DeviceCaller(d) => Some(d)
  }

  function Remembered(push: map<PushText, PushToken>, caller: Caller, p: PushText): map<PushText, PushToken> {
    push[p := PushToken(UserOf(caller), DeviceOf(caller), None)]
  }

  predicate Owns(caller: Caller, row: PushToken) {
    match caller
    case UserCaller(u) => row.user == Some(u)
    case DeviceCaller(d) => row.device == Some(d)
  }

  function Dropped(push: map<PushText, PushToken>, caller: Caller, p: PushText, at: Moment): map<PushText, PushToken> {
    if p in push && push[p].revokedAt == None && Owns(caller, push[p])
    then push[p := push[p].(revokedAt := Some(at))] else push
  }

  function Pruned(push: map<PushText, PushToken>, dead: set<PushText>, at: Moment): map<PushText, PushToken> {
    map p | p in push :: if p in dead && push[p].revokedAt == None then push[p].(revokedAt := Some(at)) else push[p]
  }

  datatype Op =
    | CreateOp(subject: SubjectId, at: Moment)
    | RemoveOp(subject: SubjectId, at: Moment)
    | IssueOp(subject: SubjectId, candidates: seq<CodeText>, at: Moment)
    | PairOp(code: CodeText, binding: Binding, device: DeviceId, token: T.TokenId, chain: T.Chain, at: Moment)
    | ReleaseOp(subject: SubjectId, at: Moment)
    | LoginOp(user: UserId, token: T.TokenId, chain: T.Chain, at: Moment)
    | RefreshOp(presented: T.TokenId, token: T.TokenId, at: Moment)
    | LogoutOp(presented: T.TokenId, at: Moment)
    | RememberOp(caller: Caller, push: PushText, at: Moment)
    | DropOp(caller: Caller, push: PushText, at: Moment)
    | PruneOp(dead: set<PushText>, at: Moment)
    | SyncAppsOp(device: DeviceId, apps: seq<A.App>, at: Moment)
    | BeatOp(device: DeviceId, status: Status, at: Moment)

  function Step(db: Db, op: Op): Db {
    match op
    case CreateOp(s, at) => db.(subjects := db.subjects[s := None])
    case RemoveOp(s, at) => if Existing(db.subjects, s) then Removed(db, s, at) else db
    case IssueOp(s, candidates, at) =>
      if Existing(db.subjects, s) && Issuable(db, s, candidates, at).Some?
      then Issued(db, s, Issuable(db, s, candidates, at).value, at) else db
    case PairOp(code, binding, device, token, chain, at) =>
      if Pairable(db, code, at) then Paired(db, code, binding, device, token, chain, at)
      else if code in db.codes then Counted(db, code) else db
    case ReleaseOp(s, at) => if Existing(db.subjects, s) then Unbound(db, Holding(db.devices, s), at) else db
    case LoginOp(user, token, chain, at) => db.(tokens := T.Opened(db.tokens, Some(user), None, chain, token, at))
    case RefreshOp(presented, token, at) => db.(tokens := T.Step(db.tokens, T.RefreshOp(presented, token, at)))
    case LogoutOp(presented, at) => db.(tokens := T.LoggedOut(db.tokens, presented, at))
    case RememberOp(caller, p, at) =>
      if CallerPasses(db, caller) then db.(push := Remembered(db.push, caller, p)) else db
    case DropOp(caller, p, at) => if CallerPasses(db, caller) then db.(push := Dropped(db.push, caller, p, at)) else db
    case PruneOp(dead, at) => db.(push := Pruned(db.push, dead, at))
    case SyncAppsOp(d, apps, at) =>
      if MayCall(db, d) then db.(apps := A.Synced(db.apps, db.devices[d].subject, d, apps, at)) else db
    case BeatOp(d, status, at) =>
      if MayCall(db, d)
      then db.(devices := db.devices[d := db.devices[d].(status := status, lastHeartbeat := at)]) else db
  }

  // ---------------------------------------------------------------- requests, as they run

  lemma UnboundNothing(db: Db, at: Moment)
    ensures Unbound(db, {}, at) == db
  {
    var after := Unbound(db, {}, at);
    assert after.devices == db.devices;
    assert after.tokens == db.tokens;
    assert after.push == db.push;
    assert SubjectsOf(db.devices, {}) == {};
    assert after.apps == db.apps;
  }

  class FleetStore {
    var subjects: map<SubjectId, Option<Moment>>
    var devices: map<DeviceId, Device>
    var codes: map<CodeText, Code>
    var tokens: T.Table
    var push: map<PushText, PushToken>
    var apps: A.Inventory

    ghost function Tables(): Db
      reads this
    {
      Db(subjects, devices, codes, tokens, push, apps)
    }

    constructor ()
      ensures Tables() == EMPTY
    {
      subjects, devices, codes, tokens, push, apps := map[], map[], map[], map[], map[], map[];
    }

    /** Stamps devices, tokens and push rows, then clears the app list subject by subject. */
    method Unbind(ids: set<DeviceId>, at: Moment)
      modifies this
      ensures Tables() == Unbound(old(Tables()), ids, at)
    {
      var owners := SubjectsOf(devices, ids);
      devices := map d | d in devices :: if d in ids then devices[d].(unboundAt := Some(at)) else devices[d];
      tokens := T.RevokeDevices(tokens, ids, at);
      push := RevokePush(push, ids, at);
      ghost var all := owners;
      while owners != {}
        invariant owners <= all
        invariant apps == ForgetAll(old(apps), all - owners)
        invariant Tables() == Unbound(old(Tables()), ids, at).(apps := apps)
        decreases owners
      {
        SomeMember(owners);
        var s :| s in owners;
        apps := A.Forgotten(apps, s);
        owners := owners - {s};
        assert all - owners == all - (owners + {s}) + {s};
      }
      assert all - owners == all;
    }

    method Displace(s: SubjectId, b: Binding, at: Moment) returns (displaced: set<DeviceId>)
      modifies this
      ensures displaced == Conflicting(old(devices), s, b)
      ensures Tables() == Unbound(old(Tables()), displaced, at)
    {
      displaced := Conflicting(devices, s, b);
      if displaced != {} {
        Unbind(displaced, at);
      } else {
        UnboundNothing(Tables(), at);
      }
    }

    method Release(s: SubjectId, at: Moment) returns (count: nat)
      modifies this
      ensures count == |Holding(old(devices), s)|
      ensures Tables() == Unbound(old(Tables()), Holding(old(devices), s), at)
    {
      var rows := Holding(devices, s);
      if rows == {} {
        UnboundNothing(Tables(), at);
        return 0;
      }
      Unbind(rows, at);
      return |rows|;
    }

    method RemoveSubject(isParent: bool, s: SubjectId, at: Moment) returns (r: Outcome<()>)
      modifies this
      ensures r.Done? <==> isParent && Existing(old(subjects), s)
      ensures Tables() == if r.Done? then Step(old(Tables()), RemoveOp(s, at)) else old(Tables())
    {
      if !isParent {
        return Refused("forbidden");
      }
      if !Existing(subjects, s) {
        return Refused("not_found");
      }
      subjects := subjects[s := Some(at)];
      var _ := Release(s, at);
      codes := WithoutOpenCodes(codes, s);
      return Done(());
    }

    method ReleaseDevice(isParent: bool, s: SubjectId, at: Moment) returns (r: Outcome<()>)
      modifies this
      ensures r.Done? <==> isParent && Existing(old(subjects), s) && Holding(old(devices), s) != {}
      ensures Tables() == if isParent then Step(old(Tables()), ReleaseOp(s, at)) else old(Tables())
    {
      if !isParent {
        return Refused("forbidden");
      }
      if !Existing(subjects, s) {
        return Refused("not_found");
      }
      var released := Release(s, at);
      if released == 0 {
        return Refused("not_found");
      }
      return Done(());
    }

    /** Draws up to five codes; running out, or hitting a stale row, rolls everything back. */
    method IssuePairingCode(isParent: bool, s: SubjectId, candidates: seq<CodeText>,
            at: Moment) returns (r: Outcome<CodeText>)
      requires |candidates| == CODE_TRIES
      modifies this
      ensures r.Done? <==> isParent && Existing(old(subjects), s) && Issuable(old(Tables()), s, candidates, at).Some?
      ensures r.Done? ==> r.value == Issuable(old(Tables()), s, candidates, at).value
      ensures Tables() == if isParent then Step(old(Tables()), IssueOp(s, candidates, at)) else old(Tables())
    {
      if !isParent {
        return Refused("forbidden");
      }
      if !Existing(subjects, s) {
        return Refused("not_found");
      }
      var saved := codes;
      codes := WithoutOpenCodes(codes, s);
      var n := 0;
      while n < CODE_TRIES && candidates[n] in codes && codes[candidates[n]].expiresAt > at
        invariant 0 <= n <= CODE_TRIES
        invariant Tables() == old(Tables()).(codes := WithoutOpenCodes(saved, s))
        invariant FirstFree(codes, candidates, at) == FirstFree(codes, candidates[n..], at)
      {
        assert candidates[n..][1..] == candidates[n + 1..];
        n := n + 1;
      }
      if n == CODE_TRIES {
        codes := saved;
        return Refused("conflict");
      }
      if candidates[n] in codes {
        codes := saved;
        return Refused("internal_error");
      }
      codes := codes[candidates[n] := Code(s, at + PAIRING_TTL, None, 0, 0, 0)];
      return Done(candidates[n]);
    }

    method CountAttempt(code: CodeText) returns (attempts: nat)
      requires code in codes
      modifies this
      ensures Tables() == Counted(old(Tables()), code)
      ensures attempts == codes[code].attempts == old(codes)[code].attempts + 1
    {
      var row := codes[code];
      attempts := row.attempts + 1;
      var passed := if Burned(attempts) then row.passed else row.passed + 1;
      codes := codes[code := row.(attempts := attempts, passed := passed)];
    }

    /** Every refusal after the lookup leaves exactly the counted attempt behind. */
    method PairDevice(code: CodeText, binding: Binding, device: DeviceId, token: T.TokenId, chain: T.Chain, at: Moment)
      returns (r: Outcome<SubjectId>)
      modifies this
      ensures r.Done? <==> Pairable(old(Tables()), code, at)
      ensures Tables() == Step(old(Tables()), PairOp(code, binding, device, token, chain, at))
    {
      if code !in codes {
        return Refused("not_found");
      }
      var row := codes[code];
      var attempts := CountAttempt(code);
      if Burned(attempts) {
        return Refused("code_burned");
      }
      if row.consumedAt.Some? {
        return Refused("code_used");
      }
      if row.expiresAt <= at {
        return Refused("code_expired");
      }
      var displaced := Displace(row.subject, binding, at);
      devices := devices[device := Device(row.subject, binding, Unknown, at, None)];
      codes := codes[code := codes[code].(consumedAt := Some(at), paired := codes[code].paired + 1)];
      tokens := tokens[token := T.NewToken(None, Some(device), chain, at, None)];
      return Done(row.subject);
    }

    method RegisterPushToken(caller: Caller, p: PushText, at: Moment) returns (r: Outcome<()>)
      modifies this
      ensures r.Done? <==> CallerPasses(old(Tables()), caller)
      ensures Tables() == Step(old(Tables()), RememberOp(caller, p, at))
    {
      if !CallerPasses(Db(subjects, devices, codes, tokens, push, apps), caller) {
        return Refused("unauthorized");
      }
      push := push[p := PushToken(UserOf(caller), DeviceOf(caller), None)];
      return Done(());
    }
  }
}
