/** The incident half of the analytics service as methods over the incident table. */
module AnalyticsService {
  import opened Text
  import opened Sorting
  import opened Incidents
  import opened IncidentListing
  import opened IncidentMails

  class AnalyticsService {
    var rows: map<int, Row>
    var nextId: int
    var log: seq<Mail>

    ghost function World(): World
      reads this
    {
      IncidentMails.World(Db(rows, nextId), log)
    }

    constructor ()
      ensures World() == IncidentMails.World(Db(map[], 1), [])
      ensures Inv(World())
    {
      rows, nextId, log := map[], 1, [];
    }

    /** The first 100 rows in listing order. */
    method Incidents() returns (items: seq<Item>)
      ensures IsWindow(rows, items)
    {
      var all := ListRows(rows);
      var sorted := Sort(Before, all);
      BeforeIsWeak();
      SortSorted(Before, all);
      SortedKeepsListing(rows, all, sorted);
      var n := if |rows| < WINDOW then |rows| else WINDOW;
      FirstOfSorted(rows, sorted, n);
      return sorted[..n];
    }

    /** The loop behind `ActiveByFingerprint`. */
    method ActiveIncidentsByFingerprint(items: seq<Item>) returns (byFingerprint: map<string, Item>)
      ensures byFingerprint == ActiveByFingerprint(items)
    {
      byFingerprint := map[];
      for i := 0 to |items|
        invariant byFingerprint == ActiveByFingerprint(items[..i])
      {
        assert items[..i + 1][..i] == items[..i];
        var item := items[i];
        if IsActive(item.row) {
          if item.row.fingerprint !in byFingerprint
            || item.row.lastSeen > byFingerprint[item.row.fingerprint].row.lastSeen
          {
            byFingerprint := byFingerprint[item.row.fingerprint := item];
          }
        }
      }
      assert items[..|items|] == items;
    }

    /** Reconciles the table with the alerts. The database may fail at one alert or one listed
        incident; then no mail is sent. `event` is the step this run amounts to. */
    method SyncIncidents(alerts: seq<Alert>, now: int, failAtAlert: Option<nat>, failAtItem: Option<nat>,
                         prefs: Prefs, delivery: Delivery) returns (ok: bool, ghost event: Event)
      requires nextId > 0
      modifies this
      ensures event.Sync? && event.alerts == alerts && event.now == now
      ensures event.prefs == prefs && event.delivery == delivery
      ensures Possible(old(World()), event) && World() == Step(old(World()), event)
      ensures ok ==> Completed(event.progress, event.before, alerts)
      ensures ok ==> forall id :: id in Touched(old(World()).db, event.before, alerts, now) ==> id in event.order
    {
      var existing := Incidents();
      var active := ActiveIncidentsByFingerprint(existing);
      ghost var w0 := World();
      var done, seen, touched := RefreshFromAlerts(active, alerts, now, failAtAlert);
      if done < |alerts| {
        event := Sync(existing, alerts, now, Progress(done, 0), [], [], prefs, delivery);
        return false, event;
      }
      assert alerts[..|alerts|] == alerts;
      var resolved;
      done, resolved := ResolveStale(existing, seen, now, failAtItem);
      if done < |existing| {
        event := Sync(existing, alerts, now, Progress(|alerts|, done), [], [], prefs, delivery);
        return false, event;
      }
      assert existing[..|existing|] == existing;
      ghost var w1 := World();
      assert w1 == w0.(db := Synced(w0.db, existing, alerts, now, Progress(|alerts|, |existing|)));
      var updated := Incidents();
      var order := SendMails(existing, updated, touched + resolved, prefs, delivery);
      forall id ensures id in order <==> id in Touched(w0.db, existing, alerts, now) {
        TouchedIs(w0.db, existing, alerts, now, id);
      }
      event := Sync(existing, alerts, now, Progress(|alerts|, |existing|), updated, order, prefs, delivery);
      return true, event;
    }

    /** The alert loop, up to the alert at which the database fails. */
    method RefreshFromAlerts(active: map<string, Item>, alerts: seq<Alert>, now: int, failAt: Option<nat>)
      returns (done: nat, seen: set<int>, touched: set<int>)
      modifies this
      ensures done <= |alerts| && log == old(log)
      ensures Db(rows, nextId) == SyncAlerts(old(Db(rows, nextId)), active, alerts[..done], now)
      ensures seen == SeenIds(active, alerts[..done])
      ensures old(nextId) <= nextId
      ensures forall id :: id in touched <==> id in seen || old(nextId) <= id < nextId
    {
      seen, touched := {}, {};
      for i := 0 to |alerts|
        invariant Db(rows, nextId) == SyncAlerts(old(Db(rows, nextId)), active, alerts[..i], now)
        invariant seen == SeenIds(active, alerts[..i])
        invariant forall id :: id in touched <==> id in seen || old(nextId) <= id < nextId
        invariant old(nextId) <= nextId && log == old(log)
      {
        if failAt == Some(i) {
          return i, seen, touched;
        }
        var alert := alerts[i];
        SeenOneMore(active, alerts[..i], alert);
        assert alerts[..i + 1] == alerts[..i] + [alert];
        assert alerts[..i + 1][..i] == alerts[..i];
        if alert.id !in active {
          rows, nextId, touched := rows[nextId := FreshRow(alert, now)], nextId + 1, touched + {nextId};
        } else {
          var current := active[alert.id];
          seen, touched := seen + {current.id}, touched + {current.id};
          if current.id in rows {
            rows := rows[current.id := Refreshed(rows[current.id], current.row.status, alert, now)];
          }
        }
      }
      return |alerts|, seen, touched;
    }

    /** The loop over the incidents listed at first, up to the one at which the database fails. */
    method ResolveStale(existing: seq<Item>, seen: set<int>, now: int, failAt: Option<nat>)
      returns (done: nat, resolved: set<int>)
      modifies this
      ensures done <= |existing| && log == old(log) && nextId == old(nextId)
      ensures rows == ResolveItems(old(rows), existing[..done], seen, now)
      ensures forall id :: id in resolved <==> Stale(existing[..done], seen, id)
    {
      resolved := {};
      for i := 0 to |existing|
        invariant rows == ResolveItems(old(rows), existing[..i], seen, now)
        invariant forall id :: id in resolved <==> Stale(existing[..i], seen, id)
        invariant nextId == old(nextId) && log == old(log)
      {
        if failAt == Some(i) {
          return i, resolved;
        }
        assert existing[..i + 1][..i] == existing[..i];
        var incident := existing[i];
        StaleOneMore(existing, i, seen);
        if IsActive(incident.row) && incident.id !in seen {
          resolved := resolved + {incident.id};
          if incident.id in rows {
            rows := rows[incident.id := rows[incident.id].(status := Resolved, lastSeen := now)];
          }
        }
      }
      return |existing|, resolved;
    }

    /** The mail loop over the touched incidents, in the order the set is visited. */
    method SendMails(before: seq<Item>, after: seq<Item>, touched: set<int>, prefs: Prefs, delivery: Delivery)
      returns (order: seq<int>)
      modifies this
      ensures Distinct(order) && forall id :: id in order <==> id in touched
      ensures World() == MailAll(old(World()), before, after, prefs, delivery, order)
    {
      order := Visit(touched);
      for i := 0 to |order|
        invariant World() == MailAll(old(World()), before, after, prefs, delivery, order[..i])
      {
        assert order[..i + 1][..i] == order[..i];
        NotifyOne(before, after, prefs, delivery, order[i]);
      }
      assert order[..|order|] == order;
    }

    /** One turn of the mail loop. */
    method NotifyOne(before: seq<Item>, after: seq<Item>, prefs: Prefs, delivery: Delivery, id: int)
      modifies this
      ensures World() == MailOne(old(World()), before, after, prefs, delivery, id)
    {
      var current := Find(after, id);
      if current == None {
        return;
      }
      if !NeedsNotification(Find(before, id), current.value, prefs) {
        return;
      }
      log := log + [Mail(id, current.value.status, id in delivery.accepts)];
      if id in delivery.accepts && id in delivery.records && id in rows {
        rows := rows[id := rows[id].(lastNotified := Some(delivery.at))];
      }
    }

    /** `DismissIncident`; `commits` tells whether the statement succeeds. */
    method DismissIncident(id: int, commits: bool) returns (ok: bool)
      modifies this
      ensures World() == if commits then Step(old(World()), Dismiss(id)) else old(World())
      ensures ok <==> id > 0 && commits
    {
      if id <= 0 {
        return false;
      }
      if commits && id in rows && rows[id].status == Open {
        rows := rows[id := rows[id].(status := Dismissed)];
      }
      return commits;
    }

    /** `DeleteIncident`: fails for an incident that is missing or still open. */
    method DeleteIncident(id: int, commits: bool) returns (ok: bool)
      modifies this
      ensures World() == if commits then Step(old(World()), Delete(id)) else old(World())
      ensures ok <==> commits && id > 0 && id in old(rows) && old(rows)[id].status != Open
    {
      if id <= 0 || !commits || id !in rows || rows[id].status == Open {
        return false;
      }
      rows := rows - {id};
      return true;
    }
  }

  lemma TouchedIs(db: Db, before: seq<Item>, alerts: seq<Alert>, now: int, id: int)
    ensures id in Touched(db, before, alerts, now) <==>
              var active := ActiveByFingerprint(before);
              || id in SeenIds(active, alerts) || Stale(before, SeenIds(active, alerts), id)
              || db.nextId <= id < SyncAlerts(db, active, alerts, now).nextId
  {
  }

  lemma SeenOneMore(active: map<string, Item>, alerts: seq<Alert>, alert: Alert)
    ensures SeenIds(active, alerts + [alert]) ==
            SeenIds(active, alerts) + if alert.id in active then {active[alert.id].id} else {}
  {
    var more := alerts + [alert];
    assert alert in more;
    assert forall a :: a in more <==> a in alerts || a == alert;
  }

  lemma StaleOneMore(items: seq<Item>, i: nat, seen: set<int>)
    requires i < |items|
    ensures forall id :: Stale(items[..i + 1], seen, id) <==>
              Stale(items[..i], seen, id) || (id !in seen && items[i].id == id && IsActive(items[i].row))
  {
    forall id
      ensures Stale(items[..i + 1], seen, id) <==>
              Stale(items[..i], seen, id) || (id !in seen && items[i].id == id && IsActive(items[i].row))
    {
      assert forall k :: 0 <= k < i ==> items[..i][k] == items[..i + 1][k];
      assert items[..i + 1][i] == items[i];
    }
  }
}
