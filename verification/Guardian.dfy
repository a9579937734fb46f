/** Alerts about a phone that stopped guarding or stopped reporting (app/services/guardian.py, the
    heartbeat of app/routers/families.py, and acknowledging in app/routers/guardian.py). */
module Guardian {
  import opened Base
  import opened Rules
  import opened Fleet
  import FL = FleetLaws

  datatype Kind = AccessibilityOff | UsageAccessOff | OverlayOff | ProtectionDisabled | DeviceSilent

  /** An alert row; its id is its position in the table. */
  datatype Alert = Alert(subject: SubjectId, kind: Kind, device: DeviceId, createdAt: Moment,
                         acknowledgedAt: Option<Moment>, resolvedAt: Option<Moment>)

  datatype Permission = Accessibility | UsageAccess | Overlay | OtherPermission

  datatype EventType = PermissionRevoked | PermissionRestored | OtherEvent

  datatype Event = Event(what: EventType, permission: Permission)

  const HEARTBEAT_SILENCE := 15 * MINUTE
  const EVENT_LIMIT := 20

  datatype State = State(fleet: Db, alerts: seq<Alert>)

  // ---------------------------------------------------------------- pure rules

  predicate Failing(s: Status) {
    s == Degraded || s == Disabled
  }

  predicate ProtectionLost(previous: Status, current: Status) {
    Failing(current) && !Failing(previous)
  }

  predicate ProtectionRegained(previous: Status, current: Status) {
    current == Ok && Failing(previous)
  }

  function KindOf(p: Permission): Option<Kind> {
    match p
    case Accessibility => Some(AccessibilityOff)
    case UsageAccess => Some(UsageAccessOff)
    case Overlay => Some(OverlayOff)
    case OtherPermission => None
  }

  // ---------------------------------------------------------------- the alert table

  predicate StillOpen(a: Alert) {
    a.acknowledgedAt == None && a.resolvedAt == None
  }

  predicate HasOpen(alerts: seq<Alert>, s: SubjectId, kind: Kind) {
    exists i :: 0 <= i < |alerts| && alerts[i].subject == s && alerts[i].kind == kind && StillOpen(alerts[i])
  }

  /** The partial unique index on open alerts turns a second insert into nothing. */
  function Raised(alerts: seq<Alert>, s: SubjectId, kind: Kind, device: DeviceId, at: Moment): seq<Alert> {
    if HasOpen(alerts, s, kind) then alerts else alerts + [Alert(s, kind, device, at, None, None)]
  }

  function ResolvedRow(a: Alert, s: SubjectId, kind: Kind, at: Moment): Alert {
    if a.subject == s && a.kind == kind && StillOpen(a) then a.(resolvedAt := Some(at)) else a
  }

  function Resolved(alerts: seq<Alert>, s: SubjectId, kind: Kind, at: Moment): (r: seq<Alert>)
    ensures |r| == |alerts| && forall i :: 0 <= i < |r| ==> r[i] == ResolvedRow(alerts[i], s, kind, at)
  {
    seq(|alerts|, i requires 0 <= i < |alerts| => ResolvedRow(alerts[i], s, kind, at))
  }

  // ---------------------------------------------------------------- requests, as functions on the state

  function AfterEvent(alerts: seq<Alert>, s: SubjectId, d: DeviceId, e: Event, at: Moment): seq<Alert> {
    var kind := KindOf(e.permission);
    if kind == None then alerts
    else match e.what
         case PermissionRevoked => Raised(alerts, s, kind.value, d, at)
         case PermissionRestored => Resolved(alerts, s, kind.value, at)
         case OtherEvent => alerts
  }

  function AfterEvents(alerts: seq<Alert>, s: SubjectId, d: DeviceId, events: seq<Event>, at: Moment): seq<Alert> {
    if events == [] then alerts
    else AfterEvent(AfterEvents(alerts, s, d, events[..|events| - 1], at), s, d, events[|events| - 1], at)
  }

  function AfterStatus(alerts: seq<Alert>, s: SubjectId, d: DeviceId, was: Status, status: Status,
          at: Moment): seq<Alert> {
    if ProtectionLost(was, status) then Raised(alerts, s, ProtectionDisabled, d, at)
    else if ProtectionRegained(was, status) then Resolved(alerts, s, ProtectionDisabled, at)
    else alerts
  }

  function Considered(events: seq<Event>): seq<Event> {
    events[..Min(|events|, EVENT_LIMIT)]
  }

  function Beaten(st: State, d: DeviceId, status: Status, events: seq<Event>, at: Moment): State
    requires MayCall(st.fleet, d)
  {
    var row := st.fleet.devices[d];
    var quiet := Resolved(st.alerts, row.subject, DeviceSilent, at);
    var judged := AfterStatus(quiet, row.subject, d, row.status, status, at);
    State(Fleet.Step(st.fleet, BeatOp(d, status, at)), AfterEvents(judged, row.subject, d, Considered(events), at))
  }

  predicate AlreadyTold(alerts: seq<Alert>, d: Device) {
    exists i :: 0 <= i < |alerts| && alerts[i].subject == d.subject && alerts[i].kind == DeviceSilent
                && alerts[i].createdAt > d.lastHeartbeat
  }

  /** The rows of the watchdog's query. */
  predicate Silent(st: State, d: DeviceId, at: Moment) {
    && MayCall(st.fleet, d)
    && st.fleet.devices[d].lastHeartbeat < at - HEARTBEAT_SILENCE
    && !AlreadyTold(st.alerts, st.fleet.devices[d])
  }

  datatype SilentRow = SilentRow(id: DeviceId, subject: SubjectId)

  predicate Fetched(st: State, row: SilentRow, at: Moment) {
    Silent(st, row.id, at) && row.subject == st.fleet.devices[row.id].subject
  }

  ghost predicate AllFetched(st: State, rows: seq<SilentRow>, at: Moment) {
    && (forall i :: 0 <= i < |rows| ==> Fetched(st, rows[i], at))
    && (forall i, j :: 0 <= i < j < |rows| ==> rows[i].id != rows[j].id)
  }

  /** The query result: the row of every silent device once, in any order. */
  ghost predicate Result(st: State, rows: seq<SilentRow>, at: Moment) {
    AllFetched(st, rows, at) && forall d :: Silent(st, d, at) ==> SilentRow(d, st.fleet.devices[d].subject) in rows
  }

  function SweptAlerts(alerts: seq<Alert>, rows: seq<SilentRow>, at: Moment): seq<Alert> {
    if rows == [] then alerts
    else
      var row := rows[|rows| - 1];
      Raised(SweptAlerts(alerts, rows[..|rows| - 1], at), row.subject, DeviceSilent, row.id, at)
  }

  datatype Op =
    | FleetOp(op: Fleet.Op)
    | HeartbeatOp(device: DeviceId, status: Status, events: seq<Event>, at: Moment)
    | AckOp(id: nat, isChild: bool, at: Moment)
    | SweepOp(rows: seq<SilentRow>, at: Moment)

  predicate Acknowledgeable(st: State, id: nat, isChild: bool) {
    id < |st.alerts| && Existing(st.fleet.subjects, st.alerts[id].subject) && !isChild
  }

  function Acknowledged(alerts: seq<Alert>, id: nat, at: Moment): seq<Alert>
    requires id < |alerts|
  {
    if alerts[id].acknowledgedAt.Some? then alerts else alerts[id := alerts[id].(acknowledgedAt := Some(at))]
  }

  ghost predicate Wellformed(st: State, op: Op) {
    match op
    case FleetOp(o) => !o.BeatOp? && FL.FreshOp(st.fleet, o)
    case SweepOp(rows, at) => Result(st, rows, at)
    case _ => true
  }

  ghost function Step(st: State, op: Op): State
    requires Wellformed(st, op)
  {
    match op
    case FleetOp(o) => st.(fleet := Fleet.Step(st.fleet, o))
    case HeartbeatOp(d, status, events, at) => if MayCall(st.fleet, d) then Beaten(st, d, status, events, at) else st
    case AckOp(id, isChild, at) =>
      if Acknowledgeable(st, id, isChild) then st.(alerts := Acknowledged(st.alerts, id, at)) else st
    case SweepOp(rows, at) => st.(alerts := SweptAlerts(st.alerts, rows, at))
  }

  // ---------------------------------------------------------------- requests, as they run

  class AlertStore {
    var fleet: Db
    var alerts: seq<Alert>

    ghost function Current(): State
      reads this
    {
      State(fleet, alerts)
    }

    constructor (fleet: Db)
      ensures Current() == State(fleet, [])
    {
      this.fleet, alerts := fleet, [];
    }

    method RaiseAlert(s: SubjectId, kind: Kind, device: DeviceId, at: Moment) returns (id: Option<nat>)
      modifies `alerts
      ensures alerts == Raised(old(alerts), s, kind, device, at)
      ensures id == if HasOpen(old(alerts), s, kind) then None else Some(|old(alerts)|)
    {
      if HasOpen(alerts, s, kind) {
        return None;
      }
      alerts := alerts + [Alert(s, kind, device, at, None, None)];
      return Some(|alerts| - 1);
    }

    method Resolve(s: SubjectId, kind: Kind, at: Moment)
      modifies `alerts
      ensures alerts == Resolved(old(alerts), s, kind, at)
    {
      alerts := Resolved(alerts, s, kind, at);
    }

    method JudgeStatus(s: SubjectId, d: DeviceId, was: Status, status: Status, at: Moment) returns (id: Option<nat>)
      modifies `alerts
      ensures alerts == AfterStatus(old(alerts), s, d, was, status, at)
      ensures id == if |alerts| == |old(alerts)| then None else Some(|old(alerts)|)
      ensures |old(alerts)| <= |alerts| <= |old(alerts)| + 1
    {
      id := None;
      if ProtectionLost(was, status) {
        id := RaiseAlert(s, ProtectionDisabled, d, at);
      } else if ProtectionRegained(was, status) {
        Resolve(s, ProtectionDisabled, at);
      }
    }

    method TakeEvent(s: SubjectId, d: DeviceId, e: Event, at: Moment) returns (id: Option<nat>)
      modifies `alerts
      ensures alerts == AfterEvent(old(alerts), s, d, e, at)
      ensures id == if |alerts| == |old(alerts)| then None else Some(|old(alerts)|)
      ensures |old(alerts)| <= |alerts| <= |old(alerts)| + 1
    {
      var kind := KindOf(e.permission);
      id := None;
      if kind.Some? {
        if e.what == PermissionRevoked {
          id := RaiseAlert(s, kind.value, d, at);
        } else if e.what == PermissionRestored {
          Resolve(s, kind.value, at);
        }
      }
    }

    method TakeEvents(s: SubjectId, d: DeviceId, events: seq<Event>, at: Moment) returns (raised: seq<nat>)
      modifies `alerts
      ensures alerts == AfterEvents(old(alerts), s, d, events, at)
      ensures |raised| == |alerts| - |old(alerts)| && forall k :: 0 <= k < |raised| ==> raised[k] == |old(alerts)| + k
    {
      raised := [];
      var n := 0;
      while n < |events|
        invariant 0 <= n <= |events|
        invariant alerts == AfterEvents(old(alerts), s, d, events[..n], at)
        invariant |raised| == |alerts| - |old(alerts)|
        invariant forall k :: 0 <= k < |raised| ==> raised[k] == |old(alerts)| + k
      {
        assert events[..n + 1][..n] == events[..n];
        var id := TakeEvent(s, d, events[n], at);
        if id.Some? {
          raised := raised + [id.value];
        }
        n := n + 1;
      }
      assert events[..n] == events;
    }

    /** Every alert this heartbeat opens, and no other, is handed to the push queue, oldest first. */
    method Heartbeat(d: DeviceId, status: Status, events: seq<Event>, at: Moment) returns (r: Outcome<seq<nat>>)
      modifies this
      ensures r.Done? <==> MayCall(old(fleet), d)
      ensures Current() == if r.Done? then Beaten(old(Current()), d, status, events, at) else old(Current())
      ensures r.Done? ==> |r.value| == |alerts| - |old(alerts)|
      ensures r.Done? ==> forall k :: 0 <= k < |r.value| ==> r.value[k] == |old(alerts)| + k
    {
      if !MayCall(fleet, d) {
        return Refused("unauthorized");
      }
      var s := fleet.devices[d].subject;
      var was := fleet.devices[d].status;
      fleet := fleet.(devices := fleet.devices[d := fleet.devices[d].(status := status, lastHeartbeat := at)]);
      Resolve(s, DeviceSilent, at);
      var first := JudgeStatus(s, d, was, status, at);
      var rest := TakeEvents(s, d, Considered(events), at);
      return Done((if first.Some? then [first.value] else []) + rest);
    }

    method Sweep(rows: seq<SilentRow>, at: Moment) returns (raised: nat)
      requires Result(Current(), rows, at)
      modifies `alerts
      ensures alerts == SweptAlerts(old(alerts), rows, at)
      ensures raised == |alerts| - |old(alerts)|
    {
      raised := 0;
      var n := 0;
      while n < |rows|
        invariant 0 <= n <= |rows|
        invariant alerts == SweptAlerts(old(alerts), rows[..n], at)
        invariant raised == |alerts| - |old(alerts)|
      {
        assert rows[..n + 1][..n] == rows[..n];
        var id := RaiseAlert(rows[n].subject, DeviceSilent, rows[n].id, at);
        n := n + 1;
        if id == None {
          continue;
        }
        raised := raised + 1;
      }
      assert rows[..n] == rows;
    }

    method Acknowledge(id: nat, isChild: bool, at: Moment) returns (r: Outcome<Alert>)
      modifies `alerts
      ensures r.Done? <==> Acknowledgeable(old(Current()), id, isChild)
      ensures alerts == if r.Done? then Acknowledged(old(alerts), id, at) else old(alerts)
      ensures r.Done? ==> r.value == alerts[id] && r.value.acknowledgedAt.Some?
      ensures r.Done? ==> !isChild
    {
      if id >= |alerts| {
        return Refused("not_found");
      }
      var row := alerts[id];
      if !Existing(fleet.subjects, row.subject) {
        return Refused("not_found");
      }
      if isChild {
        return Refused("forbidden");
      }
      if row.acknowledgedAt.Some? {
        return Done(row);
      }
      alerts := alerts[id := row.(acknowledgedAt := Some(at))];
      return Done(alerts[id]);
    }
  }

  // ---------------------------------------------------------------- counting over runs

  function SilentAlerts(alerts: seq<Alert>, s: SubjectId): nat {
    if alerts == [] then 0
    else SilentAlerts(alerts[..|alerts| - 1], s)
         + (if alerts[|alerts| - 1].subject == s && alerts[|alerts| - 1].kind == DeviceSilent then 1 else 0)
  }

  /** A bound phone of the subject whose silence, should it come, has not been told yet. */
  ghost predicate MayStillAlarm(st: State, s: SubjectId) {
    exists d :: d in st.fleet.devices && Bound(st.fleet.devices[d]) && st.fleet.devices[d].subject == s
                && !AlreadyTold(st.alerts, st.fleet.devices[d])
  }

  /** Alerts sent, plus the one that may still be due. */
  ghost function Debt(st: State, s: SubjectId): nat {
    SilentAlerts(st.alerts, s) + if MayStillAlarm(st, s) then 1 else 0
  }

  /** Signs of life: a heartbeat that was accepted, or a pairing that succeeded. */
  predicate SignOfLife(st: State, op: Op, s: SubjectId) {
    match op
    case HeartbeatOp(d, _, _, _) => MayCall(st.fleet, d) && st.fleet.devices[d].subject == s
    case FleetOp(o) => o.PairOp? && Pairable(st.fleet, o.code, o.at) && st.fleet.codes[o.code].subject == s
    case _ => false
  }

  ghost predicate OpenUnique(alerts: seq<Alert>) {
    forall i, j :: 0 <= i < j < |alerts| && StillOpen(alerts[i]) && StillOpen(alerts[j]) ==>
      alerts[i].subject != alerts[j].subject || alerts[i].kind != alerts[j].kind
  }

  ghost predicate Inv(st: State) {
    FL.Inv(st.fleet) && OpenUnique(st.alerts)
  }

  lemma {:induction false} CountIgnoresStamps(a: seq<Alert>, b: seq<Alert>, s: SubjectId)
    requires |a| == |b|
    requires forall i :: 0 <= i < |a| ==> a[i].subject == b[i].subject && a[i].kind == b[i].kind
    ensures SilentAlerts(a, s) == SilentAlerts(b, s)
    decreases |a|
  {
    if a == [] {
    } else {
      CountIgnoresStamps(a[..|a| - 1], b[..|b| - 1], s);
    }
  }

  /** Two versions of the table that differ only in stamps on old rows and in new rows of other kinds. */
  ghost predicate SameSilence(a: seq<Alert>, b: seq<Alert>) {
    && |a| <= |b|
    && (forall i :: 0 <= i < |a| ==>
          b[i].subject == a[i].subject && b[i].kind == a[i].kind && b[i].createdAt == a[i].createdAt)
    && (forall i :: |a| <= i < |b| ==> b[i].kind != DeviceSilent)
  }

  lemma {:induction false} SameSilenceSameCount(a: seq<Alert>, b: seq<Alert>, s: SubjectId)
    requires SameSilence(a, b)
    ensures SilentAlerts(a, s) == SilentAlerts(b, s)
    ensures forall d :: AlreadyTold(a, d) <==> AlreadyTold(b, d)
    decreases |b|
  {
    if |a| == |b| {
      CountIgnoresStamps(a, b, s);
    } else {
      SameSilenceSameCount(a, b[..|b| - 1], s);
    }
    forall d ensures AlreadyTold(a, d) <==> AlreadyTold(b, d) {
      if AlreadyTold(a, d) {
        var i :| && 0 <= i < |a| && a[i].subject == d.subject && a[i].kind == DeviceSilent
                 && a[i].createdAt > d.lastHeartbeat;
        assert b[i].subject == d.subject;
      }
      if AlreadyTold(b, d) {
        var i :| && 0 <= i < |b| && b[i].subject == d.subject && b[i].kind == DeviceSilent
                 && b[i].createdAt > d.lastHeartbeat;
        assert a[i].subject == d.subject;
      }
    }
  }

  lemma RaisedKeepsUnique(alerts: seq<Alert>, s: SubjectId, kind: Kind, d: DeviceId, at: Moment)
    requires OpenUnique(alerts)
    ensures OpenUnique(Raised(alerts, s, kind, d, at))
    ensures HasOpen(Raised(alerts, s, kind, d, at), s, kind)
    ensures kind != DeviceSilent ==> SameSilence(alerts, Raised(alerts, s, kind, d, at))
  {
    if !HasOpen(alerts, s, kind) {
      var after := Raised(alerts, s, kind, d, at);
      assert after[|alerts|].subject == s && after[|alerts|].kind == kind && StillOpen(after[|alerts|]);
    }
  }

  lemma ResolvedKeepsUnique(alerts: seq<Alert>, s: SubjectId, kind: Kind, at: Moment)
    requires OpenUnique(alerts)
    ensures OpenUnique(Resolved(alerts, s, kind, at)) && SameSilence(alerts, Resolved(alerts, s, kind, at))
    ensures !HasOpen(Resolved(alerts, s, kind, at), s, kind)
    ensures forall k :: !HasOpen(alerts, s, k) ==> !HasOpen(Resolved(alerts, s, kind, at), s, k)
  {
  }

  /** What a heartbeat may do to the table: no silence alert is added, none stays open. */
  ghost predicate Quieted(before: seq<Alert>, after: seq<Alert>, s: SubjectId) {
    OpenUnique(after) && SameSilence(before, after) && !HasOpen(after, s, DeviceSilent)
  }

  lemma {:induction false} EventsKeepQuiet(before: seq<Alert>, alerts: seq<Alert>, s: SubjectId, d: DeviceId,
          events: seq<Event>, at: Moment)
    requires Quieted(before, alerts, s)
    ensures Quieted(before, AfterEvents(alerts, s, d, events, at), s)
    decreases |events|
  {
    if events == [] {
    } else {
      var e := events[|events| - 1];
      var init := AfterEvents(alerts, s, d, events[..|events| - 1], at);
      EventsKeepQuiet(before, alerts, s, d, events[..|events| - 1], at);
      if KindOf(e.permission).Some? {
        if e.what == PermissionRevoked {
          RaisedKeepsUnique(init, s, KindOf(e.permission).value, d, at);
        } else if e.what == PermissionRestored {
          ResolvedKeepsUnique(init, s, KindOf(e.permission).value, at);
        }
      }
    }
  }

  /** The permission an alert of a kind is about. */
  function PermissionOf(kind: Kind): Option<Permission> {
    match kind
    case AccessibilityOff => Some(Accessibility)
    case UsageAccessOff => Some(UsageAccess)
    case OverlayOff => Some(Overlay)
    case ProtectionDisabled => None
    case DeviceSilent => None
  }

  /** What the last relevant event of a heartbeat says about one permission: revoked, restored, or nothing. */
  function Verdict(events: seq<Event>, kind: Kind): Option<EventType> {
    if events == [] then None
    else
      var e := events[|events| - 1];
      if PermissionOf(kind) == Some(e.permission) && e.what != OtherEvent then Some(e.what)
      else Verdict(events[..|events| - 1], kind)
  }

  lemma RaisedOpens(alerts: seq<Alert>, s: SubjectId, kind: Kind, d: DeviceId, at: Moment, who: SubjectId, k: Kind)
    ensures HasOpen(Raised(alerts, s, kind, d, at), who, k) <==> HasOpen(alerts, who, k) || (who == s && k == kind)
  {
    var after := Raised(alerts, s, kind, d, at);
    if HasOpen(alerts, who, k) {
      var i :| 0 <= i < |alerts| && alerts[i].subject == who && alerts[i].kind == k && StillOpen(alerts[i]);
      assert after[i] == alerts[i];
    }
    if !HasOpen(alerts, s, kind) {
      assert after[|alerts|] == Alert(s, kind, d, at, None, None);
    }
  }

  lemma ResolvedCloses(alerts: seq<Alert>, s: SubjectId, kind: Kind, at: Moment, who: SubjectId, k: Kind)
    ensures HasOpen(Resolved(alerts, s, kind, at), who, k) <==> HasOpen(alerts, who, k) && !(who == s && k == kind)
  {
    var after := Resolved(alerts, s, kind, at);
    if HasOpen(alerts, who, k) && !(who == s && k == kind) {
      var i :| 0 <= i < |alerts| && alerts[i].subject == who && alerts[i].kind == k && StillOpen(alerts[i]);
      assert after[i] == alerts[i];
    }
    if HasOpen(after, who, k) {
      var i :| 0 <= i < |after| && after[i].subject == who && after[i].kind == k && StillOpen(after[i]);
      assert after[i] == alerts[i];
    }
  }

  lemma {:induction false} LastEventDecides(alerts: seq<Alert>, s: SubjectId, d: DeviceId, events: seq<Event>,
          at: Moment, who: SubjectId, k: Kind)
    ensures HasOpen(AfterEvents(alerts, s, d, events, at), who, k) <==>
            (if who == s && Verdict(events, k).Some? then Verdict(events, k) == Some(PermissionRevoked)
             else HasOpen(alerts, who, k))
    decreases |events|
  {
    if events == [] {
    } else {
      var e := events[|events| - 1];
      var init := AfterEvents(alerts, s, d, events[..|events| - 1], at);
      LastEventDecides(alerts, s, d, events[..|events| - 1], at, who, k);
      var kind := KindOf(e.permission);
      if kind.Some? && e.what == PermissionRevoked {
        RaisedOpens(init, s, kind.value, d, at, who, k);
      } else if kind.Some? && e.what == PermissionRestored {
        ResolvedCloses(init, s, kind.value, at, who, k);
      }
    }
  }

  /** What is open after a heartbeat, exactly: silence is never; a permission's alert is open if the last of
      the first twenty events about it revoked it, closed if it restored it, and else as it was; the
      protection alert follows the edge of the reported status; and no other subject is affected. */
  lemma HeartbeatDecides(st: State, d: DeviceId, status: Status, events: seq<Event>, at: Moment, who: SubjectId,
          k: Kind)
    requires MayCall(st.fleet, d)
    ensures var s := st.fleet.devices[d].subject;
            var was := st.fleet.devices[d].status;
            var verdict := Verdict(events[..Min(|events|, 20)], k);
            var failed := was == Degraded || was == Disabled;
            var fails := status == Degraded || status == Disabled;
            HasOpen(Beaten(st, d, status, events, at).alerts, who, k) <==>
            if who != s then HasOpen(st.alerts, who, k)
            else if verdict.Some? then verdict == Some(PermissionRevoked)
            else if k == DeviceSilent then false
            else if k == ProtectionDisabled && fails && !failed then true
            else if k == ProtectionDisabled && failed && status == Ok then false
            else HasOpen(st.alerts, who, k)
  {
    var row := st.fleet.devices[d];
    var quiet := Resolved(st.alerts, row.subject, DeviceSilent, at);
    var judged := AfterStatus(quiet, row.subject, d, row.status, status, at);
    ResolvedCloses(st.alerts, row.subject, DeviceSilent, at, who, k);
    RaisedOpens(quiet, row.subject, ProtectionDisabled, d, at, who, k);
    ResolvedCloses(quiet, row.subject, ProtectionDisabled, at, who, k);
    LastEventDecides(judged, row.subject, d, Considered(events), at, who, k);
  }

  /** After a heartbeat no silence alert of its subject is open. */
  lemma HeartbeatQuiets(st: State, d: DeviceId, status: Status, events: seq<Event>, at: Moment)
    requires Inv(st) && MayCall(st.fleet, d)
    ensures Quieted(st.alerts, Beaten(st, d, status, events, at).alerts, st.fleet.devices[d].subject)
    ensures Inv(Beaten(st, d, status, events, at))
  {
    var row := st.fleet.devices[d];
    var quiet := Resolved(st.alerts, row.subject, DeviceSilent, at);
    ResolvedKeepsUnique(st.alerts, row.subject, DeviceSilent, at);
    if ProtectionLost(row.status, status) {
      RaisedKeepsUnique(quiet, row.subject, ProtectionDisabled, d, at);
    } else if ProtectionRegained(row.status, status) {
      ResolvedKeepsUnique(quiet, row.subject, ProtectionDisabled, at);
    }
    var judged := AfterStatus(quiet, row.subject, d, row.status, status, at);
    assert Quieted(st.alerts, judged, row.subject);
    EventsKeepQuiet(st.alerts, judged, row.subject, d, Considered(events), at);
    FL.BeatKeepsInv(st.fleet, d, status, at);
  }

  lemma PairStepDevices(db: Db, op: Fleet.Op, e: DeviceId)
    requires op.PairOp? && e in Fleet.Step(db, op).devices && Bound(Fleet.Step(db, op).devices[e])
    ensures (e in db.devices && Fleet.Step(db, op).devices[e] == db.devices[e]) ||
            (Pairable(db, op.code, op.at) && Fleet.Step(db, op).devices[e].subject == db.codes[op.code].subject)
  {
  }

  /** The only devices a fleet request can add are freshly paired ones; all others keep subject and
      last heartbeat, and none becomes bound again. */
  lemma FleetStepDevices(db: Db, op: Fleet.Op, e: DeviceId)
    requires !op.BeatOp? && FL.FreshOp(db, op)
    requires e in Fleet.Step(db, op).devices && Bound(Fleet.Step(db, op).devices[e])
    ensures (e in db.devices && Fleet.Step(db, op).devices[e] == db.devices[e]) ||
            (op.PairOp? && Pairable(db, op.code, op.at)
             && Fleet.Step(db, op).devices[e].subject == db.codes[op.code].subject)
  {
    if op.PairOp? {
      PairStepDevices(db, op, e);
    }
  }

  lemma FleetStepDebt(st: State, op: Fleet.Op, s: SubjectId)
    requires !op.BeatOp? && FL.FreshOp(st.fleet, op)
    ensures Debt(st.(fleet := Fleet.Step(st.fleet, op)), s)
            <= Debt(st, s) + if SignOfLife(st, FleetOp(op), s) then 1 else 0
  {
    var after := st.(fleet := Fleet.Step(st.fleet, op));
    if MayStillAlarm(after, s) && !SignOfLife(st, FleetOp(op), s) {
      var e :| e in after.fleet.devices && Bound(after.fleet.devices[e]) && after.fleet.devices[e].subject == s
               && !AlreadyTold(after.alerts, after.fleet.devices[e]);
      FleetStepDevices(st.fleet, op, e);
      assert MayStillAlarm(st, s);
    }
  }

  lemma HeartbeatDebt(st: State, d: DeviceId, status: Status, events: seq<Event>, at: Moment, s: SubjectId)
    requires Inv(st) && MayCall(st.fleet, d)
    ensures Debt(Beaten(st, d, status, events, at), s)
            <= Debt(st, s) + if st.fleet.devices[d].subject == s then 1 else 0
  {
    var after := Beaten(st, d, status, events, at);
    HeartbeatQuiets(st, d, status, events, at);
    SameSilenceSameCount(st.alerts, after.alerts, s);
    if MayStillAlarm(after, s) && st.fleet.devices[d].subject != s {
      var e :| e in after.fleet.devices && Bound(after.fleet.devices[e]) && after.fleet.devices[e].subject == s
               && !AlreadyTold(after.alerts, after.fleet.devices[e]);
      assert st.fleet.devices[e] == after.fleet.devices[e];
    }
  }

  lemma RaisedSilence(st: State, d: DeviceId, at: Moment, s: SubjectId)
    requires d in st.fleet.devices
    ensures var to := st.fleet.devices[d].subject;
            var after := Raised(st.alerts, to, DeviceSilent, d, at);
            && (forall x :: AlreadyTold(st.alerts, x) ==> AlreadyTold(after, x))
            && SilentAlerts(after, s)
               <= SilentAlerts(st.alerts, s) + (if s == to && !HasOpen(st.alerts, to, DeviceSilent) then 1 else 0)
            && (!HasOpen(st.alerts, to, DeviceSilent) && st.fleet.devices[d].lastHeartbeat < at ==>
                  AlreadyTold(after, st.fleet.devices[d]))
  {
    var to := st.fleet.devices[d].subject;
    var after := Raised(st.alerts, to, DeviceSilent, d, at);
    if !HasOpen(st.alerts, to, DeviceSilent) {
      assert after[..|st.alerts|] == st.alerts;
      forall x | AlreadyTold(st.alerts, x) ensures AlreadyTold(after, x) {
        var i :| 0 <= i < |st.alerts| && st.alerts[i].subject == x.subject && st.alerts[i].kind == DeviceSilent
                 && st.alerts[i].createdAt > x.lastHeartbeat;
        assert after[i] == st.alerts[i];
      }
      assert after[|st.alerts|] == Alert(to, DeviceSilent, d, at, None, None);
    }
  }

  /** One row of the sweep: the alert it adds is the one that was due. */
  lemma RowDebt(st: State, d: DeviceId, at: Moment, s: SubjectId)
    requires Inv(st) && MayCall(st.fleet, d) && st.fleet.devices[d].lastHeartbeat < at
    requires !AlreadyTold(st.alerts, st.fleet.devices[d])
    ensures Debt(st.(alerts := Raised(st.alerts, st.fleet.devices[d].subject, DeviceSilent, d, at)), s) <= Debt(st, s)
  {
    var to := st.fleet.devices[d].subject;
    var after := st.(alerts := Raised(st.alerts, to, DeviceSilent, d, at));
    RaisedSilence(st, d, at, s);
    if MayStillAlarm(after, s) {
      var e :| e in after.fleet.devices && Bound(after.fleet.devices[e]) && after.fleet.devices[e].subject == s
               && !AlreadyTold(after.alerts, after.fleet.devices[e]);
      assert !AlreadyTold(st.alerts, st.fleet.devices[e]);
      assert MayStillAlarm(st, s);
      if s == to {
        assert e == d;
      }
    }
    if s == to {
      assert MayStillAlarm(st, s);
    }
  }

  /** A row raised for one subject says nothing about the phone of another. */
  lemma {:induction false} SweepDebt(st: State, rows: seq<SilentRow>, at: Moment, s: SubjectId)
    requires Inv(st) && AllFetched(st, rows, at)
    ensures var after := st.(alerts := SweptAlerts(st.alerts, rows, at));
            && Inv(after)
            && Debt(after, s) <= Debt(st, s)
            && (forall d :: Silent(st, d, at) && (forall i :: 0 <= i < |rows| ==> rows[i].id != d)
                  ==> !AlreadyTold(after.alerts, st.fleet.devices[d]))
    decreases |rows|
  {
    if rows == [] {
    } else {
      var init := rows[..|rows| - 1];
      var row := rows[|rows| - 1];
      SweepDebt(st, init, at, s);
      var middle := st.(alerts := SweptAlerts(st.alerts, init, at));
      assert forall i :: 0 <= i < |init| ==> init[i] == rows[i];
      assert Fetched(st, row, at);
      assert !AlreadyTold(middle.alerts, st.fleet.devices[row.id]);
      RowDebt(middle, row.id, at, s);
      RaisedKeepsUnique(middle.alerts, row.subject, DeviceSilent, row.id, at);
      var after := Raised(middle.alerts, row.subject, DeviceSilent, row.id, at);
      forall d | Silent(st, d, at) && (forall i :: 0 <= i < |rows| ==> rows[i].id != d)
        ensures !AlreadyTold(after, st.fleet.devices[d])
      {
        assert row.id != d;
        assert st.fleet.devices[d].subject != row.subject;
        assert !AlreadyTold(middle.alerts, st.fleet.devices[d]);
      }
    }
  }

  lemma AckDebt(st: State, id: nat, at: Moment, s: SubjectId)
    requires Inv(st) && id < |st.alerts|
    ensures Inv(st.(alerts := Acknowledged(st.alerts, id, at)))
    ensures Debt(st.(alerts := Acknowledged(st.alerts, id, at)), s) <= Debt(st, s)
  {
    var after := st.(alerts := Acknowledged(st.alerts, id, at));
    SameSilenceSameCount(st.alerts, after.alerts, s);
  }

  lemma StepDebt(st: State, op: Op, s: SubjectId)
    requires Inv(st) && Wellformed(st, op)
    ensures Inv(Step(st, op))
    ensures Debt(Step(st, op), s) <= Debt(st, s) + if SignOfLife(st, op, s) then 1 else 0
  {
    match op
    case FleetOp(o) =>
      FL.StepKeepsInv(st.fleet, o);
      FleetStepDebt(st, o, s);
    case HeartbeatOp(d, status, events, at) =>
      if MayCall(st.fleet, d) {
        HeartbeatQuiets(st, d, status, events, at);
        HeartbeatDebt(st, d, status, events, at, s);
      }
    case AckOp(id, isChild, at) =>
      if Acknowledgeable(st, id, isChild) {
        AckDebt(st, id, at, s);
      }
    case SweepOp(rows, at) => SweepDebt(st, rows, at, s);
  }

  ghost predicate WellformedRun(st: State, ops: seq<Op>)
    decreases |ops|
  {
    ops == [] || (Wellformed(st, ops[0]) && WellformedRun(Step(st, ops[0]), ops[1..]))
  }

  ghost function Run(st: State, ops: seq<Op>): State
    requires WellformedRun(st, ops)
    decreases |ops|
  {
    if ops == [] then st else Run(Step(st, ops[0]), ops[1..])
  }

  ghost function SignsOfLife(st: State, ops: seq<Op>, s: SubjectId): nat
    requires WellformedRun(st, ops)
    decreases |ops|
  {
    if ops == [] then 0
    else (if SignOfLife(st, ops[0], s) then 1 else 0) + SignsOfLife(Step(st, ops[0]), ops[1..], s)
  }

  lemma {:induction false} RunDebt(st: State, ops: seq<Op>, s: SubjectId)
    requires Inv(st) && WellformedRun(st, ops)
    ensures Inv(Run(st, ops))
    ensures Debt(Run(st, ops), s) <= Debt(st, s) + SignsOfLife(st, ops, s)
    decreases |ops|
  {
    if ops == [] {
    } else {
      StepDebt(st, ops[0], s);
      RunDebt(Step(st, ops[0]), ops[1..], s);
    }
  }

  /** Over a whole run a subject is alarmed about silence at most once per sign of life, however often
      the watchdog sweeps and whatever is acknowledged in between; and at any time each subject has
      at most one open alert of each kind. */
  lemma SilenceAlertsAreEarned(ops: seq<Op>, s: SubjectId)
    requires WellformedRun(State(EMPTY, []), ops)
    ensures SilentAlerts(Run(State(EMPTY, []), ops).alerts, s) <= SignsOfLife(State(EMPTY, []), ops, s)
    ensures OpenUnique(Run(State(EMPTY, []), ops).alerts)
  {
    RunDebt(State(EMPTY, []), ops, s);
  }

  lemma {:induction false} SweepOpensForEach(alerts: seq<Alert>, rows: seq<SilentRow>, at: Moment, i: int)
    requires 0 <= i < |rows|
    ensures HasOpen(SweptAlerts(alerts, rows, at), rows[i].subject, DeviceSilent)
    decreases |rows|
  {
    var init := rows[..|rows| - 1];
    var row := rows[|rows| - 1];
    var middle := SweptAlerts(alerts, init, at);
    var after := Raised(middle, row.subject, DeviceSilent, row.id, at);
    if i < |rows| - 1 {
      SweepOpensForEach(alerts, init, at, i);
      var k :| 0 <= k < |middle| && middle[k].subject == init[i].subject && middle[k].kind == DeviceSilent
               && StillOpen(middle[k]);
      assert after[k] == middle[k];
    } else if !HasOpen(middle, row.subject, DeviceSilent) {
      assert after[|middle|] == Alert(row.subject, DeviceSilent, row.id, at, None, None);
    }
  }

  /** A sweep leaves nobody out: every phone that has been silent for fifteen minutes has either been
      reported since its last heartbeat or its subject's silence alert is open. */
  lemma SweepLeavesNobodyOut(st: State, rows: seq<SilentRow>, at: Moment, d: DeviceId)
    requires Inv(st) && Result(st, rows, at)
    requires MayCall(st.fleet, d) && st.fleet.devices[d].lastHeartbeat < at - 15 * MINUTE
    ensures AlreadyTold(st.alerts, st.fleet.devices[d]) ||
            HasOpen(SweptAlerts(st.alerts, rows, at), st.fleet.devices[d].subject, DeviceSilent)
  {
    if Silent(st, d, at) {
      var i :| 0 <= i < |rows| && rows[i] == SilentRow(d, st.fleet.devices[d].subject);
      SweepOpensForEach(st.alerts, rows, at, i);
    }
  }

  // ---------------------------------------------------------------- what becomes of an alert

  /** What may still happen to an alert: each of its stamps is set at most once. */
  ghost predicate Ages(a: Alert, b: Alert) {
    && b.subject == a.subject && b.kind == a.kind && b.device == a.device && b.createdAt == a.createdAt
    && (a.acknowledgedAt.Some? ==> b.acknowledgedAt == a.acknowledgedAt)
    && (a.resolvedAt.Some? ==> b.resolvedAt == a.resolvedAt)
  }

  ghost predicate AllAge(a: seq<Alert>, b: seq<Alert>) {
    |a| <= |b| && forall i :: 0 <= i < |a| ==> Ages(a[i], b[i])
  }

  /** What one heartbeat may do: stamp open alerts of its subject as resolved now, and add alerts of its
      subject and phone, dated now. */
  ghost predicate Touched(before: seq<Alert>, after: seq<Alert>, s: SubjectId, d: DeviceId, at: Moment) {
    && |before| <= |after|
    && (forall i :: 0 <= i < |before| ==>
          || after[i] == before[i]
          || (before[i].subject == s && StillOpen(before[i]) && after[i] == before[i].(resolvedAt := Some(at))))
    && (forall i :: |before| <= i < |after| ==>
          && after[i].subject == s && after[i].device == d && after[i].createdAt == at
          && after[i].acknowledgedAt == None && (after[i].resolvedAt.Some? ==> after[i].resolvedAt == Some(at)))
  }

  lemma RaisedTouches(before: seq<Alert>, alerts: seq<Alert>, s: SubjectId, kind: Kind, d: DeviceId, at: Moment)
    requires Touched(before, alerts, s, d, at)
    ensures Touched(before, Raised(alerts, s, kind, d, at), s, d, at)
  {
  }

  lemma ResolvedTouches(before: seq<Alert>, alerts: seq<Alert>, s: SubjectId, kind: Kind, d: DeviceId, at: Moment)
    requires Touched(before, alerts, s, d, at)
    ensures Touched(before, Resolved(alerts, s, kind, at), s, d, at)
  {
  }

  lemma {:induction false} EventsTouch(before: seq<Alert>, alerts: seq<Alert>, s: SubjectId, d: DeviceId,
                                       events: seq<Event>, at: Moment)
    requires Touched(before, alerts, s, d, at)
    ensures Touched(before, AfterEvents(alerts, s, d, events, at), s, d, at)
    decreases |events|
  {
    if events == [] {
    } else {
      var e := events[|events| - 1];
      var init := AfterEvents(alerts, s, d, events[..|events| - 1], at);
      EventsTouch(before, alerts, s, d, events[..|events| - 1], at);
      if KindOf(e.permission).Some? {
        RaisedTouches(before, init, s, KindOf(e.permission).value, d, at);
        ResolvedTouches(before, init, s, KindOf(e.permission).value, d, at);
      }
    }
  }

  /** A heartbeat touches nothing but its own subject's open alerts. */
  lemma HeartbeatTouches(st: State, d: DeviceId, status: Status, events: seq<Event>, at: Moment)
    requires MayCall(st.fleet, d)
    ensures Touched(st.alerts, Beaten(st, d, status, events, at).alerts, st.fleet.devices[d].subject, d, at)
  {
    var row := st.fleet.devices[d];
    var quiet := Resolved(st.alerts, row.subject, DeviceSilent, at);
    var judged := AfterStatus(quiet, row.subject, d, row.status, status, at);
    ResolvedTouches(st.alerts, st.alerts, row.subject, DeviceSilent, d, at);
    RaisedTouches(st.alerts, quiet, row.subject, ProtectionDisabled, d, at);
    ResolvedTouches(st.alerts, quiet, row.subject, ProtectionDisabled, d, at);
    EventsTouch(st.alerts, judged, row.subject, d, Considered(events), at);
  }

  lemma {:induction false} SweepAges(alerts: seq<Alert>, rows: seq<SilentRow>, at: Moment)
    ensures alerts <= SweptAlerts(alerts, rows, at)
    ensures forall i :: |alerts| <= i < |SweptAlerts(alerts, rows, at)| ==>
              && SweptAlerts(alerts, rows, at)[i].kind == DeviceSilent
              && SweptAlerts(alerts, rows, at)[i].createdAt == at
              && SilentRow(SweptAlerts(alerts, rows, at)[i].device, SweptAlerts(alerts, rows, at)[i].subject) in rows
    decreases |rows|
  {
    if rows == [] {
    } else {
      SweepAges(alerts, rows[..|rows| - 1], at);
      assert rows == rows[..|rows| - 1] + [rows[|rows| - 1]];
    }
  }

  lemma StepAges(st: State, op: Op)
    requires Wellformed(st, op)
    ensures AllAge(st.alerts, Step(st, op).alerts)
  {
    match op
    case FleetOp(_) =>
    case HeartbeatOp(d, status, events, at) =>
      if MayCall(st.fleet, d) {
        HeartbeatTouches(st, d, status, events, at);
      }
    case AckOp(_, _, _) =>
    case SweepOp(rows, at) => SweepAges(st.alerts, rows, at);
  }

  /** The history of an alert is never rewritten: over any run it keeps its subject, kind, phone and date, and
      the first acknowledgement and the first resolution stand. */
  lemma {:induction false} AlertsAge(st: State, ops: seq<Op>)
    requires WellformedRun(st, ops)
    ensures AllAge(st.alerts, Run(st, ops).alerts)
    decreases |ops|
  {
    if ops == [] {
    } else {
      var next := Step(st, ops[0]);
      StepAges(st, ops[0]);
      AlertsAge(next, ops[1..]);
      forall i | 0 <= i < |st.alerts| ensures Ages(st.alerts[i], Run(st, ops).alerts[i]) {
        assert Ages(st.alerts[i], next.alerts[i]) && Ages(next.alerts[i], Run(st, ops).alerts[i]);
      }
    }
  }

  /** Acknowledging is for guardians: it dates the alert with the first acknowledgement and changes nothing
      else, and a child's attempt changes nothing at all. */
  lemma AcknowledgedOnce(st: State, id: nat, at: Moment)
    ensures Step(st, AckOp(id, true, at)) == st
    ensures id < |st.alerts| && !Existing(st.fleet.subjects, st.alerts[id].subject) ==>
              Step(st, AckOp(id, false, at)) == st
    ensures id < |st.alerts| && Existing(st.fleet.subjects, st.alerts[id].subject) ==>
              var after := Step(st, AckOp(id, false, at));
              && after == st.(alerts := after.alerts) && |after.alerts| == |st.alerts|
              && (forall i :: 0 <= i < |st.alerts| && i != id ==> after.alerts[i] == st.alerts[i])
              && after.alerts[id] == st.alerts[id].(acknowledgedAt := after.alerts[id].acknowledgedAt)
              && after.alerts[id].acknowledgedAt
                 == (if st.alerts[id].acknowledgedAt.Some? then st.alerts[id].acknowledgedAt else Some(at))
  {
  }

  /** An acknowledged alert is closed: the same trouble may be reported again. */
  lemma AcknowledgedCloses(st: State, id: nat, at: Moment)
    requires OpenUnique(st.alerts) && id < |st.alerts| && Existing(st.fleet.subjects, st.alerts[id].subject)
    requires HasOpen(st.alerts, st.alerts[id].subject, st.alerts[id].kind) ==> StillOpen(st.alerts[id])
    ensures !HasOpen(Step(st, AckOp(id, false, at)).alerts, st.alerts[id].subject, st.alerts[id].kind)
  {
  }

  // ---------------------------------------------------------------- when silence is reported

  /** The clock of a request. */
  function At(op: Op): Moment {
    match op
    case FleetOp(o) => o.at
    case HeartbeatOp(_, _, _, at) => at
    case AckOp(_, _, at) => at
    case SweepOp(_, at) => at
  }

  lemma HeardByFleet(db: Db, op: Fleet.Op, d: DeviceId)
    requires !op.BeatOp? && FL.FreshOp(db, op) && d in db.devices
    ensures d in Fleet.Step(db, op).devices
    ensures Fleet.Step(db, op).devices[d].lastHeartbeat == db.devices[d].lastHeartbeat
  {
  }

  lemma HeardStep(st: State, op: Op, d: DeviceId, since: Moment)
    requires Wellformed(st, op) && d in st.fleet.devices && st.fleet.devices[d].lastHeartbeat >= since
    requires since <= At(op)
    ensures d in Step(st, op).fleet.devices && Step(st, op).fleet.devices[d].lastHeartbeat >= since
  {
    match op
    case FleetOp(o) => HeardByFleet(st.fleet, o, d);
    case HeartbeatOp(e, status, events, at) =>
      if MayCall(st.fleet, e) {
        FL.BeatIsRecorded(st.fleet, e, status, at);
      }
    case _ =>
  }

  /** A heartbeat buys a quarter of an hour: no later sweep, whatever happens in between, reports a phone's
      silence before fifteen minutes have passed since it was last heard. */
  lemma {:induction false} HeartbeatBuysTime(st: State, ops: seq<Op>, d: DeviceId, since: Moment, at: Moment)
    requires WellformedRun(st, ops) && d in st.fleet.devices && st.fleet.devices[d].lastHeartbeat >= since
    requires forall i :: 0 <= i < |ops| ==> since <= At(ops[i])
    ensures at <= since + 15 * MINUTE ==> !Silent(Run(st, ops), d, at)
    decreases |ops|
  {
    if ops == [] {
    } else {
      HeardStep(st, ops[0], d, since);
      HeartbeatBuysTime(Step(st, ops[0]), ops[1..], d, since, at);
    }
  }

  /** A status is an edge: reporting the same one again leaves the protection alert as it was. */
  lemma SameStatusTwice(st: State, d: DeviceId, status: Status, at: Moment, again: Moment, who: SubjectId)
    requires MayCall(st.fleet, d)
    ensures var once := Beaten(st, d, status, [], at);
            MayCall(once.fleet, d) &&
            (HasOpen(Beaten(once, d, status, [], again).alerts, who, ProtectionDisabled)
             <==> HasOpen(once.alerts, who, ProtectionDisabled))
  {
    var once := Beaten(st, d, status, [], at);
    FL.BeatIsRecorded(st.fleet, d, status, at);
    HeartbeatDecides(once, d, status, [], again, who, ProtectionDisabled);
  }
}
