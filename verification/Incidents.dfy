/** The incident synchroniser: a table of incidents reconciled with the alerts that currently
    fire, seen through a window of 100 rows, and the mails sent about changes. */
module Incidents {
  import opened Text
  import opened Sorting

  const WINDOW: nat := 100

  datatype Status = Open | Dismissed | Resolved

  function Rank(s: Status): nat {
    match s
    case Open => 0
    case Dismissed => 1
    case Resolved => 2
  }

  /** `details` stands for severity, title, summary, value, threshold and context. */
  datatype Alert = Alert(id: string, details: string)

  datatype Row = Row(fingerprint: string, status: Status, details: string,
                     firstSeen: int, lastSeen: int, lastNotified: Option<int>)

  datatype Item = Item(id: int, row: Row)

  predicate IsActive(row: Row) {
    row.status != Resolved
  }

  /** The listing order: open, dismissed, resolved, and the latest first within each. */
  predicate Before(a: Item, b: Item) {
    || Rank(a.row.status) < Rank(b.row.status)
    || (a.row.status == b.row.status && a.row.lastSeen > b.row.lastSeen)
  }

  /** Open rows come first and resolved ones last; of two in the same status the one seen later. */
  lemma ListingOrder(a: Item, b: Item)
    ensures a.row.status == b.row.status ==> (Before(a, b) <==> b.row.lastSeen < a.row.lastSeen)
    ensures a.row.status == Open && b.row.status != Open ==> Before(a, b) && !Before(b, a)
    ensures a.row.status == Dismissed && b.row.status == Resolved ==> Before(a, b) && !Before(b, a)
  {
  }

  // ---------- The window

  predicate Listed(items: seq<Item>, id: int) {
    exists k :: 0 <= k < |items| && items[k].id == id
  }

  /** What the listing query may return: the first 100 rows in listing order, ties in any order. */
  ghost predicate IsWindow(rows: map<int, Row>, items: seq<Item>) {
    && (forall k :: 0 <= k < |items| ==> items[k].id in rows && rows[items[k].id] == items[k].row)
    && (forall j, k :: 0 <= j < k < |items| ==> items[j].id != items[k].id)
    && |items| == (if |rows| < WINDOW then |rows| else WINDOW)
    && Sorted(Before, items)
    && (forall id, k :: id in rows && !Listed(items, id) && 0 <= k < |items| ==> !Before(Item(id, rows[id]), items[k]))
  }

  ghost function ActiveIds(rows: map<int, Row>): set<int> {
    set id | id in rows && IsActive(rows[id])
  }

  function Ids(items: seq<Item>): (ids: seq<int>)
    ensures |ids| == |items| && forall k :: 0 <= k < |ids| ==> ids[k] == items[k].id
  {
    seq(|items|, k requires 0 <= k < |items| => items[k].id)
  }

  lemma {:induction false} DistinctSize(s: seq<int>)
    requires Distinct(s)
    ensures |set x | x in s| == |s|
  {
    if s == [] {
      assert (set x | x in s) == {};
    } else {
      DistinctSize(s[1..]);
      assert (set x | x in s) == {s[0]} + (set x | x in s[1..]);
      assert s[0] !in s[1..];
    }
  }

  /** Active rows sort first, so a window misses one exactly when there are more than 100. */
  lemma WindowHoldsActive(rows: map<int, Row>, items: seq<Item>)
    requires IsWindow(rows, items)
    ensures (forall id :: id in ActiveIds(rows) ==> Listed(items, id)) <==> |ActiveIds(rows)| <= WINDOW
  {
    var listed := set x | x in Ids(items);
    DistinctSize(Ids(items));
    forall id ensures id in listed <==> Listed(items, id) {
      if Listed(items, id) {
        var k :| 0 <= k < |items| && items[k].id == id;
        assert Ids(items)[k] == id;
      }
    }
    if forall id :: id in ActiveIds(rows) ==> Listed(items, id) {
      forall id | id in ActiveIds(rows) ensures id in listed {
        assert Listed(items, id);
      }
      SubsetSize(ActiveIds(rows), listed);
    } else {
      var id :| id in ActiveIds(rows) && !Listed(items, id);
      MissedMeansFull(rows, items, id);
      forall x | x in listed ensures x in ActiveIds(rows) {
        var k :| 0 <= k < |items| && items[k].id == x;
        assert !Before(Item(id, rows[id]), items[k]);
      }
      SubsetSize(listed + {id}, ActiveIds(rows));
    }
  }

  lemma SubsetSize<T>(a: set<T>, b: set<T>)
    requires a <= b
    ensures |a| <= |b|
  {
    assert b == a + (b - a);
  }

  lemma MissedMeansFull(rows: map<int, Row>, items: seq<Item>, id: int)
    requires IsWindow(rows, items) && id in rows && !Listed(items, id)
    ensures |items| == WINDOW
  {
    var listed := set x | x in Ids(items);
    DistinctSize(Ids(items));
    forall x | x in listed ensures x in rows.Keys && x != id {
      var k :| 0 <= k < |items| && Ids(items)[k] == x;
      assert items[k].id == x;
    }
    SubsetSize(listed + {id}, rows.Keys);
    assert |rows.Keys| == |rows|;
  }

  // ---------- The reconciliation as a function

  datatype Db = Db(rows: map<int, Row>, nextId: int)

  /** Per fingerprint the active incident seen last; the earlier listed one on a tie. */
  function ActiveByFingerprint(items: seq<Item>): (m: map<string, Item>)
    ensures forall fp :: fp in m ==> m[fp] in items && IsActive(m[fp].row) && m[fp].row.fingerprint == fp
    ensures forall k :: 0 <= k < |items| && IsActive(items[k].row) ==>
              items[k].row.fingerprint in m && items[k].row.lastSeen <= m[items[k].row.fingerprint].row.lastSeen
  {
    if items == [] then map[]
    else
      var last := items[|items| - 1];
      var m := ActiveByFingerprint(items[..|items| - 1]);
      assert items == items[..|items| - 1] + [last];
      if !IsActive(last.row) then m
      else if last.row.fingerprint !in m || last.row.lastSeen > m[last.row.fingerprint].row.lastSeen
      then m[last.row.fingerprint := last]
      else m
  }

  /** The active item at `k` was seen last, and is the first listed of those. */
  ghost predicate SeenLast(items: seq<Item>, fp: string, k: nat) {
    && k < |items| && IsActive(items[k].row) && items[k].row.fingerprint == fp
    && (forall j :: 0 <= j < k && IsActive(items[j].row) && items[j].row.fingerprint == fp ==>
          items[j].row.lastSeen < items[k].row.lastSeen)
    && (forall j :: k < j < |items| && IsActive(items[j].row) && items[j].row.fingerprint == fp ==>
          items[j].row.lastSeen <= items[k].row.lastSeen)
  }

  lemma {:induction false} ActiveIs(items: seq<Item>, fp: string) returns (k: nat)
    requires fp in ActiveByFingerprint(items)
    ensures SeenLast(items, fp, k) && ActiveByFingerprint(items)[fp] == items[k]
  {
    var n := |items| - 1;
    var init := items[..n];
    var m := ActiveByFingerprint(init);
    assert forall j :: 0 <= j < n ==> init[j] == items[j];
    if ActiveByFingerprint(items) == m || items[n].row.fingerprint != fp {
      k := ActiveIs(init, fp);
    } else {
      k := n;
    }
  }

  function FreshRow(alert: Alert, now: int): Row {
    Row(alert.id, Open, alert.details, now, now, None)
  }

  /** An alert that still fires refreshes its incident; a dismissed one stays dismissed. */
  function Refreshed(row: Row, seenAs: Status, alert: Alert, now: int): Row {
    row.(status := if seenAs == Dismissed then Dismissed else Open, details := alert.details, lastSeen := now)
  }

  function SyncAlert(db: Db, active: map<string, Item>, alert: Alert, now: int): Db {
    if alert.id !in active then Db(db.rows[db.nextId := FreshRow(alert, now)], db.nextId + 1)
    else
      var current := active[alert.id];
      if current.id in db.rows
      then db.(rows := db.rows[current.id := Refreshed(db.rows[current.id], current.row.status, alert, now)])
      else db
  }

  function SyncAlerts(db: Db, active: map<string, Item>, alerts: seq<Alert>, now: int): Db {
    if alerts == [] then db
    else SyncAlert(SyncAlerts(db, active, alerts[..|alerts| - 1], now), active, alerts[|alerts| - 1], now)
  }

  /** Ids of the incidents whose alert still fires. */
  function SeenIds(active: map<string, Item>, alerts: seq<Alert>): set<int> {
    set a | a in alerts && a.id in active :: active[a.id].id
  }

  function ResolveItem(rows: map<int, Row>, item: Item, seen: set<int>, now: int): map<int, Row> {
    if IsActive(item.row) && item.id !in seen && item.id in rows
    then rows[item.id := rows[item.id].(status := Resolved, lastSeen := now)]
    else rows
  }

  function ResolveItems(rows: map<int, Row>, items: seq<Item>, seen: set<int>, now: int): map<int, Row> {
    if items == [] then rows
    else ResolveItem(ResolveItems(rows, items[..|items| - 1], seen, now), items[|items| - 1], seen, now)
  }

  /** How far the two loops get before the database fails, if it does. */
  datatype Progress = Progress(alerts: nat, items: nat)

  predicate ProgressOk(p: Progress, items: seq<Item>, alerts: seq<Alert>) {
    p.alerts <= |alerts| && p.items <= |items| && (p.alerts < |alerts| ==> p.items == 0)
  }

  predicate Completed(p: Progress, items: seq<Item>, alerts: seq<Alert>) {
    p.alerts == |alerts| && p.items == |items|
  }

  /** The table after a synchronisation that got as far as `p`. */
  function Synced(db: Db, items: seq<Item>, alerts: seq<Alert>, now: int, p: Progress): Db
    requires ProgressOk(p, items, alerts)
  {
    var active := ActiveByFingerprint(items);
    var db1 := SyncAlerts(db, active, alerts[..p.alerts], now);
    db1.(rows := ResolveItems(db1.rows, items[..p.items], SeenIds(active, alerts), now))
  }

  // ---------- What a synchronisation does to each row

  /** Ids are handed out once and never reused. */
  ghost predicate Numbered(db: Db) {
    db.nextId > 0 && forall id :: id in db.rows ==> 0 < id < db.nextId
  }

  /** What may happen to a row that is there: the fingerprint stays, the status only moves on. */
  predicate Later(a: Row, b: Row) {
    a.fingerprint == b.fingerprint && a.firstSeen == b.firstSeen && a.lastNotified == b.lastNotified
    && Rank(a.status) <= Rank(b.status)
  }

  /** The active incidents are those of the table. */
  ghost predicate Current(rows: map<int, Row>, active: map<string, Item>) {
    forall fp :: fp in active ==>
      && active[fp].id in rows && rows[active[fp].id] == active[fp].row
      && IsActive(active[fp].row) && active[fp].row.fingerprint == fp
  }

  /** Rows that were there: still there, untouched unless their alert fires, status not changed. */
  ghost predicate OldRows(rows0: map<int, Row>, rows: map<int, Row>, seen: set<int>) {
    forall id :: id in rows0 ==>
      && id in rows && Later(rows0[id], rows[id])
      && (id in seen ==> rows[id].status == rows0[id].status)
      && (id !in seen ==> rows[id] == rows0[id])
  }

  predicate IsNew(row: Row, active: map<string, Item>, alerts: seq<Alert>) {
    && row.status == Open && row.lastNotified == None && row.fingerprint !in active
    && exists k :: 0 <= k < |alerts| && alerts[k].id == row.fingerprint
  }

  /** Rows with new numbers: open incidents of alerts that had no active one. */
  ghost predicate NewRows(db0: Db, db: Db, active: map<string, Item>, alerts: seq<Alert>) {
    && db0.nextId <= db.nextId
    && (forall id :: id in db.rows ==> id in db0.rows || db0.nextId <= id < db.nextId)
    && (forall id :: db0.nextId <= id < db.nextId ==> id in db.rows && IsNew(db.rows[id], active, alerts))
  }

  lemma SyncAlertStep(db0: Db, db: Db, active: map<string, Item>, alerts: seq<Alert>, alert: Alert, now: int)
    requires Numbered(db0) && Current(db0.rows, active)
    requires OldRows(db0.rows, db.rows, SeenIds(active, alerts)) && NewRows(db0, db, active, alerts)
    ensures var db' := SyncAlert(db, active, alert, now);
            && OldRows(db0.rows, db'.rows, SeenIds(active, alerts + [alert]))
            && NewRows(db0, db', active, alerts + [alert])
  {
    var more := alerts + [alert];
    var db' := SyncAlert(db, active, alert, now);
    assert SeenIds(active, alerts) <= SeenIds(active, more);
    assert alert in more;
    forall id | db0.nextId <= id < db'.nextId ensures id in db'.rows && IsNew(db'.rows[id], active, more) {
      if id < db.nextId {
        assert IsNew(db.rows[id], active, alerts);
        var k :| 0 <= k < |alerts| && alerts[k].id == db.rows[id].fingerprint;
        assert more[k].id == db'.rows[id].fingerprint;
      } else {
        assert more[|alerts|].id == db'.rows[id].fingerprint;
      }
    }
    if alert.id in active {
      assert active[alert.id].id in SeenIds(active, more);
    }
  }

  /** What the alert loop does. */
  lemma {:induction false} SyncAlertsEffect(db0: Db, active: map<string, Item>, alerts: seq<Alert>, now: int)
    requires Numbered(db0) && Current(db0.rows, active)
    ensures var db := SyncAlerts(db0, active, alerts, now);
            OldRows(db0.rows, db.rows, SeenIds(active, alerts)) && NewRows(db0, db, active, alerts)
  {
    if alerts != [] {
      var init, last := alerts[..|alerts| - 1], alerts[|alerts| - 1];
      SyncAlertsEffect(db0, active, init, now);
      SyncAlertStep(db0, SyncAlerts(db0, active, init, now), active, init, last, now);
      assert init + [last] == alerts;
    }
  }

  ghost predicate DistinctAlerts(alerts: seq<Alert>) {
    forall j, k :: 0 <= j < k < |alerts| ==> alerts[j].id != alerts[k].id
  }

  /** One alert keeps the new rows and adds one if it has no active incident. */
  lemma SyncAlertNewRows(db0: Db, db: Db, active: map<string, Item>, alert: Alert, now: int)
    requires Numbered(db0) && Current(db0.rows, active) && db0.nextId <= db.nextId
    ensures var db' := SyncAlert(db, active, alert, now);
            && db'.nextId == (if alert.id in active then db.nextId else db.nextId + 1)
            && (forall id :: db0.nextId <= id < db.nextId && id in db.rows ==>
               id in db'.rows && db'.rows[id] == db.rows[id])
            && (alert.id !in active ==> db.nextId in db'.rows && db'.rows[db.nextId].fingerprint == alert.id)
  {
  }

  /** Every alert without an active incident gets a row. */
  lemma {:induction false} EveryAlertHasARow(db0: Db, active: map<string, Item>, alerts: seq<Alert>, now: int, k: nat)
    requires Numbered(db0) && Current(db0.rows, active)
    requires k < |alerts| && alerts[k].id !in active
    ensures HasNewRow(db0, SyncAlerts(db0, active, alerts, now), alerts[k].id)
  {
    var init, last := alerts[..|alerts| - 1], alerts[|alerts| - 1];
    var db := SyncAlerts(db0, active, init, now);
    SyncAlertsEffect(db0, active, init, now);
    SyncAlertNewRows(db0, db, active, last, now);
    if k < |init| {
      EveryAlertHasARow(db0, active, init, now, k);
      var id :| db0.nextId <= id < db.nextId && id in db.rows && db.rows[id].fingerprint == init[k].id;
      assert SyncAlert(db, active, last, now).rows[id].fingerprint == alerts[k].id;
    }
  }

  ghost predicate NewRowsDistinct(db0: Db, db: Db) {
    forall a, b :: db0.nextId <= a < b < db.nextId && a in db.rows && b in db.rows ==>
      db.rows[a].fingerprint != db.rows[b].fingerprint
  }

  /** Distinct alerts get distinct rows. */
  lemma {:induction false} DistinctAlertsGetOneRow(db0: Db, active: map<string, Item>, alerts: seq<Alert>, now: int)
    requires Numbered(db0) && Current(db0.rows, active) && DistinctAlerts(alerts)
    ensures NewRowsDistinct(db0, SyncAlerts(db0, active, alerts, now))
  {
    if alerts != [] {
      var init, last := alerts[..|alerts| - 1], alerts[|alerts| - 1];
      var db := SyncAlerts(db0, active, init, now);
      DistinctAlertsGetOneRow(db0, active, init, now);
      SyncAlertsEffect(db0, active, init, now);
      SyncAlertNewRows(db0, db, active, last, now);
      forall a | db0.nextId <= a < db.nextId ensures db.rows[a].fingerprint != last.id {
        assert IsNew(db.rows[a], active, init);
        var k :| 0 <= k < |init| && init[k].id == db.rows[a].fingerprint;
        assert alerts[k].id != alerts[|alerts| - 1].id;
      }
    }
  }

  predicate HasNewRow(db0: Db, db: Db, fp: string) {
    exists id :: db0.nextId <= id < db.nextId && id in db.rows && db.rows[id].fingerprint == fp
  }

  /** The items the second loop resolves. */
  predicate Stale(items: seq<Item>, seen: set<int>, id: int) {
    id !in seen && exists k :: 0 <= k < |items| && items[k].id == id && IsActive(items[k].row)
  }

  /** What the second loop does. */
  lemma {:induction false} ResolveItemsEffect(rows: map<int, Row>, items: seq<Item>, seen: set<int>, now: int)
    ensures var rows' := ResolveItems(rows, items, seen, now);
            && rows'.Keys == rows.Keys
            && forall id :: id in rows ==>
                 rows'[id] == if Stale(items, seen, id) then rows[id].(status := Resolved, lastSeen := now)
                   else rows[id]
  {
    if items != [] {
      var init, last := items[..|items| - 1], items[|items| - 1];
      ResolveItemsEffect(rows, init, seen, now);
      forall id ensures Stale(items, seen, id)
        <==> Stale(init, seen, id) || (id !in seen && last.id == id && IsActive(last.row))
      {
        if Stale(init, seen, id) {
          var k :| 0 <= k < |init| && init[k].id == id && IsActive(init[k].row);
          assert items[k].id == id;
        }
        if id !in seen && last.id == id && IsActive(last.row) {
          assert items[|items| - 1].id == id;
        }
      }
    }
  }

  /** A row as an alert that fires leaves it: the incident it has, with the alert's details and the
      time, or a new open one. */
  ghost predicate ShowsAlert(db0: Db, rows: map<int, Row>, active: map<string, Item>, alert: Alert, now: int) {
    if alert.id in active then
      var id := active[alert.id].id;
      id in db0.rows && id in rows && rows[id] == db0.rows[id].(details := alert.details, lastSeen := now)
    else
      exists id :: id >= db0.nextId && id in rows && rows[id] == Row(alert.id, Open, alert.details, now, now, None)
  }

  lemma {:induction false} AlertsAreShown(db0: Db, active: map<string, Item>, alerts: seq<Alert>, now: int, k: nat)
    requires Numbered(db0) && Current(db0.rows, active) && DistinctAlerts(alerts) && k < |alerts|
    ensures ShowsAlert(db0, SyncAlerts(db0, active, alerts, now).rows, active, alerts[k], now)
  {
    var init, last := alerts[..|alerts| - 1], alerts[|alerts| - 1];
    var db := SyncAlerts(db0, active, init, now);
    SyncAlertsEffect(db0, active, init, now);
    if k < |init| {
      AlertsAreShown(db0, active, init, now, k);
      assert alerts[k].id != last.id;
      OtherAlertStays(db0, db, active, alerts[k], last, now);
    } else {
      NotYetSeen(active, alerts, k);
      LastAlertIsShown(db0, db, active, init, last, now);
    }
  }

  lemma NotYetSeen(active: map<string, Item>, alerts: seq<Alert>, k: nat)
    requires DistinctAlerts(alerts) && k == |alerts| - 1
    ensures forall a :: a in alerts[..k] ==> a.id != alerts[k].id
  {
  }

  lemma LastAlertIsShown(db0: Db, db: Db, active: map<string, Item>, init: seq<Alert>, last: Alert, now: int)
    requires Current(db0.rows, active) && OldRows(db0.rows, db.rows, SeenIds(active, init)) && db0.nextId <= db.nextId
    requires forall a :: a in init ==> a.id != last.id
    ensures ShowsAlert(db0, SyncAlert(db, active, last, now).rows, active, last, now)
  {
    if last.id in active {
      var id := active[last.id].id;
      forall a | a in init && a.id in active ensures active[a.id].id != id {
        assert active[a.id].row.fingerprint == a.id;
      }
      assert id !in SeenIds(active, init);
      assert db.rows[id] == db0.rows[id];
    } else {
      assert db.nextId in SyncAlert(db, active, last, now).rows;
    }
  }

  lemma OtherAlertStays(db0: Db, db: Db, active: map<string, Item>, alert: Alert, last: Alert, now: int)
    requires Current(db0.rows, active) && alert.id != last.id
    requires forall id :: id in db.rows ==> id < db.nextId
    requires ShowsAlert(db0, db.rows, active, alert, now)
    requires forall fp :: fp in active ==> active[fp].id < db0.nextId
    ensures ShowsAlert(db0, SyncAlert(db, active, last, now).rows, active, alert, now)
  {
    if alert.id in active {
      assert last.id in active ==> active[last.id].row.fingerprint == last.id;
      assert active[alert.id].row.fingerprint == alert.id;
    } else {
      var id :| id >= db0.nextId && id in db.rows && db.rows[id] == Row(alert.id, Open, alert.details, now, now, None);
      assert SyncAlert(db, active, last, now).rows[id] == db.rows[id];
    }
  }

  // ---------- One synchronisation cleans the table

  /** Exactly one active row per alert, and no other active row. */
  ghost predicate Clean(rows: map<int, Row>, alerts: seq<Alert>) {
    && (forall id :: id in rows && IsActive(rows[id]) ==>
       exists k :: 0 <= k < |alerts| && alerts[k].id == rows[id].fingerprint)
    && (forall k :: 0 <= k < |alerts| ==> HasActive(rows, alerts[k].id))
    && (forall a, b :: a in rows && b in rows && SameActive(rows[a], rows[b]) ==> a == b)
  }

  predicate SameActive(a: Row, b: Row) {
    IsActive(a) && IsActive(b) && a.fingerprint == b.fingerprint
  }

  predicate HasActive(rows: map<int, Row>, fp: string) {
    exists id :: id in rows && IsActive(rows[id]) && rows[id].fingerprint == fp
  }

  /** What is active afterwards: incidents whose alert fires, new ones, and those the window missed. */
  lemma ActiveAfterwards(db: Db, items: seq<Item>, alerts: seq<Alert>, now: int, id: int)
    requires Numbered(db) && IsWindow(db.rows, items)
    ensures var active := ActiveByFingerprint(items);
            var db1 := SyncAlerts(db, active, alerts, now);
            var rows := ResolveItems(db1.rows, items, SeenIds(active, alerts), now);
            && Current(db.rows, active) && db.nextId <= db1.nextId
            && (id in db.rows || db.nextId <= id < db1.nextId <==> id in rows)
            && (id in db.rows ==> rows[id].fingerprint == db.rows[id].fingerprint
                                  && (IsActive(rows[id]) <==>
                                        IsActive(db.rows[id]) && (id in SeenIds(active, alerts) || !Listed(items, id))))
            && (db.nextId <= id < db1.nextId ==>
               id in db1.rows && rows[id] == db1.rows[id] && IsNew(rows[id], active, alerts))
  {
    var active := ActiveByFingerprint(items);
    var seen := SeenIds(active, alerts);
    assert Current(db.rows, active);
    SyncAlertsEffect(db, active, alerts, now);
    ResolveItemsEffect(SyncAlerts(db, active, alerts, now).rows, items, seen, now);
  }

  function SyncedRows(db: Db, items: seq<Item>, alerts: seq<Alert>, now: int): map<int, Row> {
    var active := ActiveByFingerprint(items);
    ResolveItems(SyncAlerts(db, active, alerts, now).rows, items, SeenIds(active, alerts), now)
  }

  lemma NewIsNotListed(rows: map<int, Row>, items: seq<Item>, id: int)
    requires IsWindow(rows, items) && id !in rows
    ensures !Listed(items, id)
  {
  }

  lemma ListedRow(rows: map<int, Row>, items: seq<Item>, seen: set<int>, id: int)
    requires IsWindow(rows, items) && id in rows
    ensures Stale(items, seen, id) <==> id !in seen && Listed(items, id) && IsActive(rows[id])
  {
    if Listed(items, id) {
      var k :| 0 <= k < |items| && items[k].id == id;
      assert items[k].row == rows[id];
    }
  }

  /** What a complete synchronisation writes: every alert's incident shows its details and the time;
      a listed active row no alert has is resolved now; every other row is as it was. */
  lemma SyncWritesRows(db: Db, items: seq<Item>, alerts: seq<Alert>, now: int, k: nat, id: int)
    requires Numbered(db) && IsWindow(db.rows, items) && DistinctAlerts(alerts)
    ensures k < |alerts| ==>
              ShowsAlert(db, SyncedRows(db, items, alerts, now), ActiveByFingerprint(items), alerts[k], now)
    ensures id in db.rows && id !in SeenIds(ActiveByFingerprint(items), alerts) ==>
              && id in SyncedRows(db, items, alerts, now)
              && SyncedRows(db, items, alerts, now)[id]
                 == if Listed(items, id) && IsActive(db.rows[id])
                    then db.rows[id].(status := Resolved, lastSeen := now) else db.rows[id]
  {
    var active := ActiveByFingerprint(items);
    var seen := SeenIds(active, alerts);
    var db1 := SyncAlerts(db, active, alerts, now);
    assert Current(db.rows, active);
    SyncAlertsEffect(db, active, alerts, now);
    ResolveItemsEffect(db1.rows, items, seen, now);
    if id in db.rows {
      ListedRow(db.rows, items, seen, id);
    }
    if k < |alerts| {
      AlertsAreShown(db, active, alerts, now, k);
      ShownStays(db, items, active, alerts, now, k, seen);
    }
  }

  lemma ShownStays(db: Db, items: seq<Item>, active: map<string, Item>, alerts: seq<Alert>, now: int, k: nat,
                   seen: set<int>)
    requires Numbered(db) && IsWindow(db.rows, items) && k < |alerts| && seen == SeenIds(active, alerts)
    requires var rows := SyncAlerts(db, active, alerts, now).rows;
             ShowsAlert(db, rows, active, alerts[k], now)
    ensures var rows := SyncAlerts(db, active, alerts, now).rows;
            ShowsAlert(db, ResolveItems(rows, items, seen, now), active, alerts[k], now)
  {
    var rows := SyncAlerts(db, active, alerts, now).rows;
    ResolveItemsEffect(rows, items, seen, now);
    if alerts[k].id in active {
      assert alerts[k] in alerts;
      assert active[alerts[k].id].id in seen;
    } else {
      var id :| id >= db.nextId && id in rows
                && rows[id] == Row(alerts[k].id, Open, alerts[k].details, now, now, None);
      NewIsNotListed(db.rows, items, id);
      assert ResolveItems(rows, items, seen, now)[id] == rows[id];
    }
  }

  lemma SeenHasAlert(active: map<string, Item>, alerts: seq<Alert>, id: int) returns (k: nat)
    requires id in SeenIds(active, alerts)
    ensures k < |alerts| && alerts[k].id in active && active[alerts[k].id].id == id
  {
    var a :| a in alerts && a.id in active && active[a.id].id == id;
    k :| 0 <= k < |alerts| && alerts[k] == a;
  }

  /** An active row after a complete run of the window has a firing alert. */
  lemma ActiveHasAlert(db: Db, items: seq<Item>, alerts: seq<Alert>, now: int, id: int) returns (k: nat)
    requires Numbered(db) && IsWindow(db.rows, items)
    requires id in SyncedRows(db, items, alerts, now) && IsActive(SyncedRows(db, items, alerts, now)[id])
    requires id in ActiveIds(db.rows) ==> Listed(items, id)
    ensures k < |alerts| && alerts[k].id == SyncedRows(db, items, alerts, now)[id].fingerprint
    ensures id in db.rows ==>
            alerts[k].id in ActiveByFingerprint(items) && ActiveByFingerprint(items)[alerts[k].id].id == id
    ensures id !in db.rows ==> alerts[k].id !in ActiveByFingerprint(items)
  {
    var active := ActiveByFingerprint(items);
    var rows := SyncedRows(db, items, alerts, now);
    ActiveAfterwards(db, items, alerts, now, id);
    if id in db.rows {
      k := SeenHasAlert(active, alerts, id);
    } else {
      assert IsNew(rows[id], active, alerts);
      k :| 0 <= k < |alerts| && alerts[k].id == rows[id].fingerprint;
    }
  }

  lemma AlertHasActive(db: Db, items: seq<Item>, alerts: seq<Alert>, now: int, k: nat)
    requires Numbered(db) && IsWindow(db.rows, items) && k < |alerts|
    ensures HasActive(SyncedRows(db, items, alerts, now), alerts[k].id)
    ensures alerts[k].id in ActiveByFingerprint(items) ==>
              var id := ActiveByFingerprint(items)[alerts[k].id].id;
              && id in SyncedRows(db, items, alerts, now) && Listed(items, id)
              && IsActive(SyncedRows(db, items, alerts, now)[id])
              && SyncedRows(db, items, alerts, now)[id].fingerprint == alerts[k].id
  {
    var active := ActiveByFingerprint(items);
    var rows := SyncedRows(db, items, alerts, now);
    if alerts[k].id in active {
      var item := active[alerts[k].id];
      var j :| 0 <= j < |items| && items[j] == item;
      assert alerts[k] in alerts;
      assert item.id in SeenIds(active, alerts);
      ActiveAfterwards(db, items, alerts, now, item.id);
      assert items[j].id == item.id;
    } else {
      assert Current(db.rows, active);
      EveryAlertHasARow(db, active, alerts, now, k);
      var db1 := SyncAlerts(db, active, alerts, now);
      var id :| db.nextId <= id < db1.nextId && id in db1.rows && db1.rows[id].fingerprint == alerts[k].id;
      ActiveAfterwards(db, items, alerts, now, id);
    }
  }

  /** Distinct active rows belong to distinct alerts. */
  lemma OneActivePerAlert(db: Db, items: seq<Item>, alerts: seq<Alert>, now: int, a: int, b: int)
    requires Numbered(db) && IsWindow(db.rows, items) && DistinctAlerts(alerts)
    requires forall id :: id in ActiveIds(db.rows) ==> Listed(items, id)
    requires var rows := SyncedRows(db, items, alerts, now);
             a in rows && b in rows && a < b && IsActive(rows[a]) && IsActive(rows[b])
    ensures SyncedRows(db, items, alerts, now)[a].fingerprint != SyncedRows(db, items, alerts, now)[b].fingerprint
  {
    var active := ActiveByFingerprint(items);
    var db1 := SyncAlerts(db, active, alerts, now);
    var ka := ActiveHasAlert(db, items, alerts, now, a);
    var kb := ActiveHasAlert(db, items, alerts, now, b);
    ActiveAfterwards(db, items, alerts, now, a);
    ActiveAfterwards(db, items, alerts, now, b);
    DistinctAlertsGetOneRow(db, active, alerts, now);
  }

  /** From any table, even one with several active rows per fingerprint, one synchronisation over
      distinct alerts leaves exactly one active row per alert and no other, if and only if at most
      100 rows were active: only then does the window show them all. */
  lemma SyncCleansTheTable(db: Db, items: seq<Item>, alerts: seq<Alert>, now: int)
    requires Numbered(db) && IsWindow(db.rows, items) && DistinctAlerts(alerts)
    ensures Clean(SyncedRows(db, items, alerts, now), alerts) <==> |ActiveIds(db.rows)| <= WINDOW
  {
    var rows := SyncedRows(db, items, alerts, now);
    WindowHoldsActive(db.rows, items);
    forall k | 0 <= k < |alerts| ensures HasActive(rows, alerts[k].id) {
      AlertHasActive(db, items, alerts, now, k);
    }
    if |ActiveIds(db.rows)| <= WINDOW {
      forall id | id in rows && IsActive(rows[id])
        ensures exists k :: 0 <= k < |alerts| && alerts[k].id == rows[id].fingerprint
      {
        var k := ActiveHasAlert(db, items, alerts, now, id);
      }
      forall a, b | a in rows && b in rows && SameActive(rows[a], rows[b]) ensures a == b {
        if a < b {
          OneActivePerAlert(db, items, alerts, now, a, b);
        } else if b < a {
          OneActivePerAlert(db, items, alerts, now, b, a);
        }
      }
    } else {
      var missed :| missed in ActiveIds(db.rows) && !Listed(items, missed);
      MissedRowStays(db, items, alerts, now, missed);
    }
  }

  /** An active row outside the window stays as active as it was, next to whatever its alert has. */
  lemma MissedRowStays(db: Db, items: seq<Item>, alerts: seq<Alert>, now: int, missed: int)
    requires Numbered(db) && IsWindow(db.rows, items) && missed in ActiveIds(db.rows) && !Listed(items, missed)
    ensures var rows := SyncedRows(db, items, alerts, now);
            && missed in rows && IsActive(rows[missed]) && rows[missed].fingerprint == db.rows[missed].fingerprint
            && !Clean(rows, alerts)
  {
    var rows := SyncedRows(db, items, alerts, now);
    var active := ActiveByFingerprint(items);
    ActiveAfterwards(db, items, alerts, now, missed);
    if k :| 0 <= k < |alerts| && alerts[k].id == rows[missed].fingerprint {
      AlertHasActive(db, items, alerts, now, k);
      if alerts[k].id in active {
        assert SameActive(rows[missed], rows[active[alerts[k].id].id]);
      } else {
        EveryAlertHasARow(db, active, alerts, now, k);
        var db1 := SyncAlerts(db, active, alerts, now);
        var id :| db.nextId <= id < db1.nextId && id in db1.rows && db1.rows[id].fingerprint == alerts[k].id;
        ActiveAfterwards(db, items, alerts, now, id);
        assert SameActive(rows[missed], rows[id]);
      }
    }
  }
}
