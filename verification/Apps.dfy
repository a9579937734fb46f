/** The list of apps installed on a subject's phone (app/services/apps.py). */
module Apps {
  import opened Base
  import opened Rules

  type Package = string

  datatype App = App(package: Package, name: string)

  datatype AppRow = AppRow(
    name: string, device: DeviceId, firstSeen: Moment, lastSeen: Moment, removedAt: Option<Moment>)

  type Inventory = map<(SubjectId, Package), AppRow>

  predicate IsPresent(rows: Inventory, subject: SubjectId, package: Package) {
    (subject, package) in rows && rows[(subject, package)].removedAt == None
  }

  /** The packages a phone is currently known to hold. */
  function Known(rows: Inventory, subject: SubjectId): set<Package> {
    set key | key in rows && key.0 == subject && rows[key].removedAt == None :: key.1
  }

  function Packages(apps: seq<App>): set<Package> {
    set i | 0 <= i < |apps| :: apps[i].package
  }

  /** The app that a later one of the same package does not replace. */
  ghost predicate IsLast(apps: seq<App>, i: int) {
    0 <= i < |apps| && forall j :: i < j < |apps| ==> apps[j].package != apps[i].package
  }

  ghost predicate IsLatest(apps: seq<App>, a: App) {
    exists i :: IsLast(apps, i) && apps[i] == a
  }

  predicate DistinctPackages(apps: seq<App>) {
    forall i, j :: 0 <= i < j < |apps| ==> apps[i].package != apps[j].package
  }

  /** Inserting a row, or refreshing it; a row that had been removed starts over as newly seen. */
  function Upsert(rows: Inventory, subject: SubjectId, device: DeviceId, app: App, at: Moment): Inventory {
    var key := (subject, app.package);
    var first := if key in rows && rows[key].removedAt == None then rows[key].firstSeen else at;
    rows[key := AppRow(app.name, device, first, at, None)]
  }

  function UpsertAll(rows: Inventory, subject: SubjectId, device: DeviceId, apps: seq<App>, at: Moment): Inventory {
    if apps == [] then rows
    else Upsert(UpsertAll(rows, subject, device, apps[..|apps| - 1], at), subject, device, apps[|apps| - 1], at)
  }

  function MarkRemoved(rows: Inventory, subject: SubjectId, gone: set<Package>, at: Moment): Inventory {
    map key | key in rows :: if key.0 == subject && key.1 in gone then rows[key].(removedAt := Some(at)) else rows[key]
  }

  function Synced(rows: Inventory, subject: SubjectId, device: DeviceId, apps: seq<App>, at: Moment): Inventory {
    MarkRemoved(UpsertAll(rows, subject, device, apps, at), subject, Known(rows, subject) - Packages(apps), at)
  }

  function Forgotten(rows: Inventory, subject: SubjectId): Inventory {
    map key | key in rows && key.0 != subject :: rows[key]
  }

  function Latest(apps: seq<App>): map<Package, App> {
    if apps == [] then map[] else Latest(apps[..|apps| - 1])[apps[|apps| - 1].package := apps[|apps| - 1]]
  }

  lemma {:induction false} LatestHolds(apps: seq<App>, i: int)
    requires 0 <= i < |apps|
    ensures apps[i].package in Latest(apps)
    decreases |apps|
  {
    if i < |apps| - 1 {
      LatestHolds(apps[..|apps| - 1], i);
    }
  }

  lemma {:induction false} LatestIsLast(apps: seq<App>, p: Package) returns (i: int)
    requires p in Latest(apps)
    ensures IsLast(apps, i) && apps[i] == Latest(apps)[p] && apps[i].package == p
    decreases |apps|
  {
    i := |apps| - 1;
    if apps[i].package != p {
      i := LatestIsLast(apps[..i], p);
    }
  }

  /** Where a package is first named. */
  function FirstAt(apps: seq<App>, p: Package): nat {
    if apps == [] || apps[0].package == p then 0 else 1 + FirstAt(apps[1..], p)
  }

  lemma {:induction false} FirstAtIs(apps: seq<App>, i: nat)
    requires i < |apps| && forall j :: 0 <= j < i ==> apps[j].package != apps[i].package
    ensures FirstAt(apps, apps[i].package) == i
    decreases i
  {
    if i == 0 {
    } else {
      assert apps[0].package != apps[i].package;
      FirstAtIs(apps[1..], i - 1);
    }
  }

  ghost predicate InFirstOrder(apps: seq<App>, order: seq<Package>) {
    forall i, j :: 0 <= i < j < |order| ==> FirstAt(apps, order[i]) < FirstAt(apps, order[j])
  }

  function Values(order: seq<Package>, latest: map<Package, App>): (values: seq<App>)
    requires forall k :: 0 <= k < |order| ==> order[k] in latest
    ensures |values| == |order| && forall k :: 0 <= k < |order| ==> values[k] == latest[order[k]]
  {
    seq(|order|, k requires 0 <= k < |order| => latest[order[k]])
  }

  lemma ValuesAreLatest(apps: seq<App>, order: seq<Package>, unique: seq<App>)
    requires forall i, j :: 0 <= i < j < |order| ==> order[i] != order[j]
    requires forall k :: 0 <= k < |order| ==> order[k] in Latest(apps)
    requires forall p :: p in Latest(apps) ==> p in order
    requires |unique| == |order| && forall k :: 0 <= k < |order| ==> unique[k] == Latest(apps)[order[k]]
    ensures DistinctPackages(unique) && Packages(unique) == Packages(apps)
    ensures forall k :: 0 <= k < |unique| ==> IsLatest(apps, unique[k]) && unique[k].package == order[k]
  {
    forall k | 0 <= k < |unique|
      ensures unique[k].package == order[k] && IsLatest(apps, unique[k]) && order[k] in Packages(apps)
    {
      var i := LatestIsLast(apps, order[k]);
    }
    forall i | 0 <= i < |apps| ensures apps[i].package in Packages(unique) {
      LatestHolds(apps, i);
      var k :| 0 <= k < |order| && order[k] == apps[i].package;
      assert unique[k].package == order[k];
    }
  }

  lemma FirstAppearance(apps: seq<App>, n: nat)
    requires n < |apps| && apps[n].package !in Latest(apps[..n])
    ensures FirstAt(apps, apps[n].package) == n
  {
    forall j | 0 <= j < n ensures apps[j].package != apps[n].package {
      LatestHolds(apps[..n], j);
    }
    FirstAtIs(apps, n);
  }

  /** Keeps the last entry of every package, in the order packages first appear. */
  method Deduplicate(apps: seq<App>) returns (unique: seq<App>)
    ensures DistinctPackages(unique) && Packages(unique) == Packages(apps)
    ensures forall k :: 0 <= k < |unique| ==> IsLatest(apps, unique[k])
    ensures forall i, j :: 0 <= i < j < |unique| ==> FirstAt(apps, unique[i].package) < FirstAt(apps, unique[j].package)
  {
    var latest: map<Package, App> := map[];
    var order: seq<Package> := [];
    var n := 0;
    while n < |apps|
      invariant 0 <= n <= |apps|
      invariant latest == Latest(apps[..n])
      invariant forall i, j :: 0 <= i < j < |order| ==> order[i] != order[j]
      invariant forall k :: 0 <= k < |order| ==> order[k] in latest
      invariant forall p :: p in latest ==> p in order
      invariant InFirstOrder(apps, order) && forall k :: 0 <= k < |order| ==> FirstAt(apps, order[k]) < n
    {
      var a := apps[n];
      assert apps[..n + 1][..n] == apps[..n];
      if a.package !in latest {
        FirstAppearance(apps, n);
        order := order + [a.package];
      }
      latest := latest[a.package := a];
      n := n + 1;
    }
    assert apps[..n] == apps;
    unique := Values(order, latest);
    ValuesAreLatest(apps, order, unique);
  }

  function FreshRow(rows: Inventory, subject: SubjectId, device: DeviceId, app: App, at: Moment): AppRow {
    var stays := IsPresent(rows, subject, app.package);
    AppRow(app.name, device, if stays then rows[(subject, app.package)].firstSeen else at, at, None)
  }

  lemma {:induction false} UpsertAllKeys(rows: Inventory, subject: SubjectId, device: DeviceId, apps: seq<App>,
          at: Moment, key: (SubjectId, Package))
    ensures var after := UpsertAll(rows, subject, device, apps, at);
            && (key in after <==> key in rows || (key.0 == subject && key.1 in Packages(apps)))
            && (key in rows && !(key.0 == subject && key.1 in Packages(apps)) ==> after[key] == rows[key])
    decreases |apps|
  {
    if apps == [] {
    } else {
      var init := apps[..|apps| - 1];
      UpsertAllKeys(rows, subject, device, init, at, key);
      assert Packages(apps) == Packages(init) + {apps[|apps| - 1].package} by {
        assert forall i :: 0 <= i < |init| ==> apps[i] == init[i];
      }
    }
  }

  lemma {:induction false} UpsertAllRow(rows: Inventory, subject: SubjectId, device: DeviceId, apps: seq<App>,
          at: Moment, i: nat)
    requires DistinctPackages(apps) && i < |apps|
    ensures var after := UpsertAll(rows, subject, device, apps, at);
            && (subject, apps[i].package) in after
            && after[(subject, apps[i].package)] == FreshRow(rows, subject, device, apps[i], at)
    decreases |apps|
  {
    var init := apps[..|apps| - 1];
    if i < |init| {
      UpsertAllRow(rows, subject, device, init, at, i);
    } else {
      UpsertAllKeys(rows, subject, device, init, at, (subject, apps[i].package));
    }
  }

  /** After a sync the phone is known to hold exactly what it reported, under the reported names; an app
      keeps its first-seen time only while it stays installed, one that vanished stays in the table as
      removed, and no other subject's rows move. */
  lemma SyncedIsReported(rows: Inventory, subject: SubjectId, device: DeviceId, apps: seq<App>, at: Moment)
    requires DistinctPackages(apps)
    ensures var after := Synced(rows, subject, device, apps, at);
            && Known(after, subject) == Packages(apps)
            && (forall i :: 0 <= i < |apps| ==> (subject, apps[i].package) in after)
            && (forall i :: 0 <= i < |apps| ==>
                  after[(subject, apps[i].package)] == FreshRow(rows, subject, device, apps[i], at))
            && (forall p :: IsPresent(rows, subject, p) && p !in Packages(apps) ==>
                  (subject, p) in after && after[(subject, p)] == rows[(subject, p)].(removedAt := Some(at)))
            && (forall key: (SubjectId, Package) :: key.0 != subject ==>
                  (key in after <==> key in rows) && (key in rows ==> after[key] == rows[key]))
  {
    var upserted := UpsertAll(rows, subject, device, apps, at);
    var after := Synced(rows, subject, device, apps, at);
    forall key: (SubjectId, Package)
      ensures key in upserted <==> key in rows || (key.0 == subject && key.1 in Packages(apps))
      ensures key in rows && !(key.0 == subject && key.1 in Packages(apps)) ==> upserted[key] == rows[key]
    {
      UpsertAllKeys(rows, subject, device, apps, at, key);
    }
    forall i | 0 <= i < |apps|
      ensures (subject, apps[i].package) in upserted
      ensures upserted[(subject, apps[i].package)] == FreshRow(rows, subject, device, apps[i], at)
    {
      UpsertAllRow(rows, subject, device, apps, at, i);
    }
    forall p ensures p in Known(after, subject) <==> p in Packages(apps) {
      if p in Packages(apps) {
        assert (subject, p) in upserted && after[(subject, p)] == upserted[(subject, p)];
      } else if (subject, p) in after {
        assert upserted[(subject, p)] == rows[(subject, p)];
      }
    }
  }

  /** No row exists for the subject, not even one of a removed app. */
  predicate IsBaseline(rows: Inventory, subject: SubjectId) {
    forall key :: key in rows ==> key.0 != subject
  }

  /** The event that tells the guardian what a later report changed. */
  datatype Change = Change(
    subject: SubjectId, device: DeviceId, installed: set<Package>, uninstalled: set<Package>, at: Moment)

  function ChangeOf(rows: Inventory, subject: SubjectId, device: DeviceId, apps: seq<App>, at: Moment): Option<Change> {
    var installed := Packages(apps) - Known(rows, subject);
    var uninstalled := Known(rows, subject) - Packages(apps);
    if IsBaseline(rows, subject) || (installed == {} && uninstalled == {}) then None
    else Some(Change(subject, device, installed, uninstalled, at))
  }

  /** Forgetting a subject's list makes its next report a first one: every app in it is newly seen, whatever
      was known before. Other subjects keep their rows. */
  lemma ForgottenStartsOver(rows: Inventory, subject: SubjectId, device: DeviceId, apps: seq<App>, at: Moment, i: nat,
                            key: (SubjectId, Package))
    requires DistinctPackages(apps) && i < |apps|
    ensures var gone := Forgotten(rows, subject);
            var after := Synced(gone, subject, device, apps, at);
            && IsBaseline(gone, subject)
            && ChangeOf(gone, subject, device, apps, at) == None
            && (subject, apps[i].package) in after
            && after[(subject, apps[i].package)] == AppRow(apps[i].name, device, at, at, None)
            && (key in after && key.0 == subject ==> key.1 in Packages(apps))
            && (key.0 != subject ==> (key in after <==> key in rows) && (key in rows ==> after[key] == rows[key]))
  {
    var gone := Forgotten(rows, subject);
    SyncedIsReported(gone, subject, device, apps, at);
    UpsertAllKeys(gone, subject, device, apps, at, key);
  }

  // ---------------------------------------------------------------- the record of changes

  datatype Diff = Diff(installed: set<Package>, uninstalled: set<Package>, baseline: bool)

  function Recorded(changes: seq<Change>, change: Option<Change>): seq<Change> {
    if change.Some? then changes + [change.value] else changes
  }

  datatype Report = Report(subject: SubjectId, device: DeviceId, apps: seq<App>, at: Moment)

  datatype Shelf = Shelf(rows: Inventory, changes: seq<Change>)

  function Reported(shelf: Shelf, r: Report): Shelf {
    Shelf(Synced(shelf.rows, r.subject, r.device, r.apps, r.at),
          Recorded(shelf.changes, ChangeOf(shelf.rows, r.subject, r.device, r.apps, r.at)))
  }

  function AllReported(shelf: Shelf, reports: seq<Report>): Shelf {
    if reports == [] then shelf else Reported(AllReported(shelf, reports[..|reports| - 1]), reports[|reports| - 1])
  }

  /** A set of packages after the changes recorded for a subject. */
  function Replayed(base: set<Package>, changes: seq<Change>, subject: SubjectId): set<Package> {
    if changes == [] then base
    else
      var last := changes[|changes| - 1];
      var before := Replayed(base, changes[..|changes| - 1], subject);
      if last.subject == subject then before + last.installed - last.uninstalled else before
  }

  lemma ReplayedOneMore(base: set<Package>, changes: seq<Change>, more: Change, subject: SubjectId)
    ensures var before := Replayed(base, changes, subject);
            Replayed(base, changes + [more], subject)
            == if more.subject == subject then before + more.installed - more.uninstalled else before
  {
    assert (changes + [more])[..|changes|] == changes;
  }

  function FirstReport(reports: seq<Report>, subject: SubjectId): Option<set<Package>> {
    if reports == [] then None
    else if reports[0].subject == subject then Some(Packages(reports[0].apps))
    else FirstReport(reports[1..], subject)
  }

  lemma {:induction false} FirstReportOneMore(reports: seq<Report>, more: Report, subject: SubjectId)
    ensures FirstReport(reports + [more], subject)
            == if FirstReport(reports, subject) == None && more.subject == subject then Some(Packages(more.apps))
               else FirstReport(reports, subject)
    decreases |reports|
  {
    if reports == [] {
      assert [more][1..] == [];
    } else {
      assert (reports + [more])[1..] == reports[1..] + [more];
      FirstReportOneMore(reports[1..], more, subject);
    }
  }

  /** What the report schema and the deduplication before it guarantee. */
  predicate Sent(r: Report) {
    r.apps != [] && DistinctPackages(r.apps)
  }

  lemma ReportedStep(rows: Inventory, r: Report, subject: SubjectId)
    requires Sent(r)
    ensures var after := Synced(rows, r.subject, r.device, r.apps, r.at);
            && (IsBaseline(after, subject) <==> IsBaseline(rows, subject) && r.subject != subject)
            && Known(after, subject) == if r.subject == subject then Packages(r.apps) else Known(rows, subject)
  {
    var after := Synced(rows, r.subject, r.device, r.apps, r.at);
    SyncedIsReported(rows, r.subject, r.device, r.apps, r.at);
    if r.subject == subject {
      assert (subject, r.apps[0].package) in after;
    } else {
      assert forall key :: key in rows && key.0 == subject ==> key in after;
    }
  }

  lemma DiffLeadsThere(known: set<Package>, reported: set<Package>)
    ensures known + (reported - known) - (known - reported) == reported
  {
  }

  lemma {:induction false} NothingReplayed(base: set<Package>, changes: seq<Change>, subject: SubjectId)
    requires forall i :: 0 <= i < |changes| ==> changes[i].subject != subject
    ensures Replayed(base, changes, subject) == base
    decreases |changes|
  {
    if changes == [] {
    } else {
      NothingReplayed(base, changes[..|changes| - 1], subject);
    }
  }

  lemma FirstReportReplays(rows: Inventory, since: seq<Change>, r: Report, subject: SubjectId)
    requires Sent(r) && IsBaseline(rows, subject)
    requires forall i :: 0 <= i < |since| ==> since[i].subject != subject
    ensures var change := ChangeOf(rows, r.subject, r.device, r.apps, r.at);
            Known(Synced(rows, r.subject, r.device, r.apps, r.at), subject)
            == Replayed(if r.subject == subject then Packages(r.apps) else {}, Recorded(since, change), subject)
  {
    ReportedStep(rows, r, subject);
    var change := ChangeOf(rows, r.subject, r.device, r.apps, r.at);
    NothingReplayed(if r.subject == subject then Packages(r.apps) else {}, Recorded(since, change), subject);
  }

  lemma LaterReportReplays(rows: Inventory, since: seq<Change>, base: set<Package>, r: Report, subject: SubjectId)
    requires Sent(r) && !IsBaseline(rows, subject) && Known(rows, subject) == Replayed(base, since, subject)
    ensures var change := ChangeOf(rows, r.subject, r.device, r.apps, r.at);
            Known(Synced(rows, r.subject, r.device, r.apps, r.at), subject)
            == Replayed(base, Recorded(since, change), subject)
  {
    ReportedStep(rows, r, subject);
    DiffLeadsThere(Known(rows, r.subject), Packages(r.apps));
    var change := ChangeOf(rows, r.subject, r.device, r.apps, r.at);
    if change.Some? {
      ReplayedOneMore(base, since, change.value, subject);
    }
  }

  /** The changes recorded from the n-th on lead from the first report to what is known. */
  ghost predicate Explained(n: nat, shelf: Shelf, first: Option<set<Package>>, subject: SubjectId) {
    && n <= |shelf.changes|
    && (first == None <==> IsBaseline(shelf.rows, subject))
    && (first == None ==> forall i :: n <= i < |shelf.changes| ==> shelf.changes[i].subject != subject)
    && Known(shelf.rows, subject) == Replayed(if first.Some? then first.value else {}, shelf.changes[n..], subject)
  }

  lemma ReportKeepsExplained(n: nat, shelf: Shelf, first: Option<set<Package>>, r: Report, subject: SubjectId)
    requires Sent(r) && Explained(n, shelf, first, subject)
    ensures Explained(n, Reported(shelf, r),
                      if first == None && r.subject == subject then Some(Packages(r.apps)) else first, subject)
  {
    var since := shelf.changes[n..];
    var change := ChangeOf(shelf.rows, r.subject, r.device, r.apps, r.at);
    assert Recorded(shelf.changes, change)[n..] == Recorded(since, change);
    ReportedStep(shelf.rows, r, subject);
    if first == None {
      assert forall i :: 0 <= i < |since| ==> since[i] == shelf.changes[n + i];
      FirstReportReplays(shelf.rows, since, r, subject);
    } else {
      LaterReportReplays(shelf.rows, since, first.value, r, subject);
    }
  }

  /** The record is complete: from the moment a subject has no rows, the packages it is known to hold are at
      any later time those of its first report with the recorded changes made to them, whatever other
      phones report in between. */
  lemma {:induction false} ChangesExplainInventory(shelf: Shelf, reports: seq<Report>, subject: SubjectId)
    requires IsBaseline(shelf.rows, subject)
    requires forall i :: 0 <= i < |reports| ==> Sent(reports[i])
    ensures Explained(|shelf.changes|, AllReported(shelf, reports), FirstReport(reports, subject), subject)
    decreases |reports|
  {
    if reports == [] {
      assert Known(shelf.rows, subject) == {};
      assert shelf.changes[|shelf.changes|..] == [];
    } else {
      var init, r := reports[..|reports| - 1], reports[|reports| - 1];
      ChangesExplainInventory(shelf, init, subject);
      ReportKeepsExplained(|shelf.changes|, AllReported(shelf, init), FirstReport(init, subject), r, subject);
      FirstReportOneMore(init, r, subject);
      assert init + [r] == reports;
    }
  }

  class InventoryStore {
    var rows: Inventory
    var changes: seq<Change>

    method UpsertApps(subject: SubjectId, device: DeviceId, apps: seq<App>, at: Moment)
      modifies `rows
      ensures rows == UpsertAll(old(rows), subject, device, apps, at)
    {
      var n := 0;
      while n < |apps|
        invariant 0 <= n <= |apps|
        invariant rows == UpsertAll(old(rows), subject, device, apps[..n], at)
      {
        rows := Upsert(rows, subject, device, apps[n], at);
        assert apps[..n + 1][..n] == apps[..n];
        n := n + 1;
      }
      assert apps[..n] == apps;
    }

    /** What changed is told by comparing the report with what was known before it, and recorded unless the
        subject was unknown. */
    method Sync(subject: SubjectId, device: DeviceId, reported: seq<App>, at: Moment)
      returns (diff: Diff, ghost kept: seq<App>)
      modifies this
      ensures DistinctPackages(kept) && Packages(kept) == Packages(reported)
      ensures forall k :: 0 <= k < |kept| ==> IsLatest(reported, kept[k])
      ensures Shelf(rows, changes) == Reported(Shelf(old(rows), old(changes)), Report(subject, device, kept, at))
      ensures diff.baseline <==> IsBaseline(old(rows), subject)
      ensures Known(rows, subject) == Known(old(rows), subject) + diff.installed - diff.uninstalled
      ensures diff.installed !! Known(old(rows), subject) && diff.uninstalled <= Known(old(rows), subject)
      ensures diff.installed !! diff.uninstalled
      ensures changes == if diff.baseline || (diff.installed == {} && diff.uninstalled == {}) then old(changes)
                         else old(changes) + [Change(subject, device, diff.installed, diff.uninstalled, at)]
    {
      var apps := Deduplicate(reported);
      kept := apps;
      var known := Known(rows, subject);
      var installed := Packages(apps) - known;
      var uninstalled := known - Packages(apps);
      var baseline := forall key :: key in rows ==> key.0 != subject;
      SyncedIsReported(rows, subject, device, apps, at);
      DiffLeadsThere(known, Packages(apps));

      UpsertApps(subject, device, apps, at);
      rows := MarkRemoved(rows, subject, uninstalled, at);
      if !baseline && (installed != {} || uninstalled != {}) {
        changes := changes + [Change(subject, device, installed, uninstalled, at)];
      }
      diff := Diff(installed, uninstalled, baseline);
    }

    /** Unbinding a phone deletes its subject's rows; what was recorded stays. */
    method Forget(subject: SubjectId)
      modifies `rows
      ensures rows == Forgotten(old(rows), subject)
    {
      rows := map key | key in rows && key.0 != subject :: rows[key];
    }
  }
}
