/** Runs of the incident table: synchronisations with their mails, dismissals and deletions, each
    one atomic step, in any order. */
module IncidentMails {
  import opened Text
  import opened Sorting
  import opened Incidents

  /** A mail handed to the mail server: about which incident, in which status, and whether it was
      accepted. */
  datatype Mail = Mail(id: int, status: Status, accepted: bool)

  datatype World = World(db: Db, log: seq<Mail>)

  /** The two notification settings. */
  datatype Prefs = Prefs(onOpen: bool, onResolved: bool)

  /** Which mails the server accepts, and for which the table can be told so. */
  datatype Delivery = Delivery(accepts: set<int>, records: set<int>, at: int)

  predicate ShouldNotify(status: Status, prefs: Prefs) {
    (status == Open && prefs.onOpen) || (status == Resolved && prefs.onResolved)
  }

  predicate NeedsNotification(previous: Option<Row>, current: Row, prefs: Prefs) {
    && ShouldNotify(current.status, prefs)
    && match previous
       case None => current.status == Open
       case Some(p) => p.status != current.status || (current.status == Open && p.lastNotified == None)
  }

  /** `analyticsIncidentsByID` followed by a lookup. */
  function Find(items: seq<Item>, id: int): Option<Row> {
    if items == [] then None
    else if items[|items| - 1].id == id then Some(items[|items| - 1].row)
    else Find(items[..|items| - 1], id)
  }

  lemma {:induction false} FindIn(rows: map<int, Row>, items: seq<Item>, id: int)
    requires forall k :: 0 <= k < |items| ==> items[k].id in rows && rows[items[k].id] == items[k].row
    ensures Find(items, id).Some? <==> Listed(items, id)
    ensures Find(items, id).Some? ==> id in rows && Find(items, id).value == rows[id]
  {
    if items != [] {
      var init := items[..|items| - 1];
      FindIn(rows, init, id);
      if Listed(items, id) && items[|items| - 1].id != id {
        var k :| 0 <= k < |items| && items[k].id == id;
        assert init[k].id == id;
      }
      if Listed(init, id) {
        var k :| 0 <= k < |init| && init[k].id == id;
        assert items[k].id == id;
      }
    }
  }

  /** A mail goes out for this incident: the rows listed before and after call for one. */
  predicate Mailed(before: seq<Item>, after: seq<Item>, prefs: Prefs, id: int) {
    var current := Find(after, id);
    current.Some? && NeedsNotification(Find(before, id), current.value, prefs)
  }

  function MailOne(w: World, before: seq<Item>, after: seq<Item>, prefs: Prefs, d: Delivery, id: int): World {
    if !Mailed(before, after, prefs, id) then w
    else
      var ok := id in d.accepts;
      World(if ok && id in d.records && id in w.db.rows
            then w.db.(rows := w.db.rows[id := w.db.rows[id].(lastNotified := Some(d.at))]) else w.db,
            w.log + [Mail(id, Find(after, id).value.status, ok)])
  }

  function MailAll(w: World, before: seq<Item>, after: seq<Item>, prefs: Prefs, d: Delivery, order: seq<int>): World {
    if order == [] then w
    else MailOne(MailAll(w, before, after, prefs, d, order[..|order| - 1]), before, after, prefs, d, order[|order| - 1])
  }

  // ---------- Events

  /** A synchronisation: what it read, how far it got, what it read back, and the order in which
      it visited the incidents it had touched (no order if it stopped early). */
  datatype Event =
    | Sync(before: seq<Item>, alerts: seq<Alert>, now: int, progress: Progress,
           after: seq<Item>, order: seq<int>, prefs: Prefs, delivery: Delivery)
    | Dismiss(id: int)
    | Delete(id: int)

  /** Incidents that a complete synchronisation inserts, refreshes or resolves. */
  ghost function Touched(db: Db, before: seq<Item>, alerts: seq<Alert>, now: int): iset<int> {
    var active := ActiveByFingerprint(before);
    iset id | id in SeenIds(active, alerts) || Stale(before, SeenIds(active, alerts), id)
              || db.nextId <= id < SyncAlerts(db, active, alerts, now).nextId
  }

  ghost predicate Possible(w: World, e: Event) {
    e.Sync? ==>
      && IsWindow(w.db.rows, e.before) && ProgressOk(e.progress, e.before, e.alerts)
      && Distinct(e.order)
      && (forall id :: id in e.order ==> id in Touched(w.db, e.before, e.alerts, e.now))
      && (e.order != [] ==>
            && Completed(e.progress, e.before, e.alerts)
            && IsWindow(Synced(w.db, e.before, e.alerts, e.now, e.progress).rows, e.after))
  }

  function Step(w: World, e: Event): World
    requires e.Sync? ==> ProgressOk(e.progress, e.before, e.alerts)
  {
    match e
    case Sync(before, alerts, now, p, after, order, prefs, d) =>
      MailAll(w.(db := Synced(w.db, before, alerts, now, p)), before, after, prefs, d, order)
    case Dismiss(id) =>
      if id > 0 && id in w.db.rows && w.db.rows[id].status == Open
      then w.(db := w.db.(rows := w.db.rows[id := w.db.rows[id].(status := Dismissed)])) else w
    case Delete(id) =>
      if id > 0 && id in w.db.rows && w.db.rows[id].status != Open
      then w.(db := w.db.(rows := w.db.rows - {id})) else w
  }

  ghost predicate Runs(w: World, events: seq<Event>)
    decreases |events|
  {
    events == [] || (Possible(w, events[0]) && Runs(Step(w, events[0]), events[1..]))
  }

  ghost function After(w: World, events: seq<Event>): World
    requires Runs(w, events)
    decreases |events|
  {
    if events == [] then w else After(Step(w, events[0]), events[1..])
  }

  // ---------- Status only moves forward

  /** Numbers are not reused and no status moves back. */
  ghost predicate Forward(a: Db, b: Db) {
    && a.nextId <= b.nextId
    && forall id :: id in b.rows && id < a.nextId ==>
         id in a.rows && Rank(a.rows[id].status) <= Rank(b.rows[id].status)
           && a.rows[id].fingerprint == b.rows[id].fingerprint
  }

  /** What a synchronisation, complete or cut short, does to the table. */
  lemma SyncedEffect(db: Db, items: seq<Item>, alerts: seq<Alert>, now: int, p: Progress)
    requires Numbered(db) && IsWindow(db.rows, items) && ProgressOk(p, items, alerts)
    ensures var db' := Synced(db, items, alerts, now, p);
            && Numbered(db') && db.nextId <= db'.nextId
            && (forall id :: id in db'.rows <==> id in db.rows || db.nextId <= id < db'.nextId)
            && (forall id :: id in db.rows ==> Later(db.rows[id], db'.rows[id]))
            && (forall id :: db.nextId <= id < db'.nextId ==>
               db'.rows[id].status == Open && db'.rows[id].lastNotified == None)
  {
    var active := ActiveByFingerprint(items);
    assert Current(db.rows, active);
    SyncAlertsEffect(db, active, alerts[..p.alerts], now);
    BothLoops(db, SyncAlerts(db, active, alerts[..p.alerts], now), active, alerts[..p.alerts], items[..p.items],
              SeenIds(active, alerts[..p.alerts]), SeenIds(active, alerts), now);
  }

  /** A row out of the first loop, seen through the second. */
  lemma BothLoops(db: Db, db1: Db, active: map<string, Item>, alerts: seq<Alert>, items: seq<Item>, found: set<int>,
                  seen: set<int>, now: int)
    requires Numbered(db) && OldRows(db.rows, db1.rows, found) && NewRows(db, db1, active, alerts)
    requires forall k :: 0 <= k < |items| ==> items[k].id in db.rows
    ensures var rows := ResolveItems(db1.rows, items, seen, now);
            && Numbered(Db(rows, db1.nextId)) && db.nextId <= db1.nextId
            && (forall id :: id in rows <==> id in db.rows || db.nextId <= id < db1.nextId)
            && (forall id :: id in db.rows ==> Later(db.rows[id], rows[id]))
            && (forall id :: db.nextId <= id < db1.nextId ==>
               rows[id].status == Open && rows[id].lastNotified == None)
  {
    var rows := ResolveItems(db1.rows, items, seen, now);
    ResolveItemsEffect(db1.rows, items, seen, now);
    forall id | id in db.rows ensures Later(db.rows[id], rows[id]) {
      assert Later(db.rows[id], db1.rows[id]);
    }
    forall id | db.nextId <= id < db1.nextId ensures rows[id].status == Open && rows[id].lastNotified == None {
      assert IsNew(db1.rows[id], active, alerts);
      assert !Stale(items, seen, id);
    }
  }

  /** `after` is `before` with the given mail about one incident sent, if any. */
  ghost predicate OneMailSent(w: World, w': World, id: int, mail: Option<Mail>, recorded: Option<int>) {
    && w'.db.rows.Keys == w.db.rows.Keys && w'.db.nextId == w.db.nextId
    && (id in w.db.rows ==>
          w'.db.rows[id] == if recorded.Some? then w.db.rows[id].(lastNotified := recorded) else w.db.rows[id])
    && Count(w'.log, id, Open) == Count(w.log, id, Open) + (if mail.Some? && mail.value.status == Open then 1 else 0)
    && Count(w'.log, id, Resolved) == Count(w.log, id, Resolved)
       + (if mail.Some? && mail.value.status == Resolved then 1 else 0)
    && OpenAccepted(w'.log, id) == OpenAccepted(w.log, id) + (if mail == Some(Mail(id, Open, true)) then 1 else 0)
  }

  /** The mail that goes out about an incident, and the time then put on record. */
  function MailFor(before: seq<Item>, after: seq<Item>, prefs: Prefs, d: Delivery, id: int): Option<Mail> {
    if Mailed(before, after, prefs, id) then Some(Mail(id, Find(after, id).value.status, id in d.accepts)) else None
  }

  function RecordFor(before: seq<Item>, after: seq<Item>, prefs: Prefs, d: Delivery, id: int): Option<int> {
    if Mailed(before, after, prefs, id) && id in d.accepts && id in d.records then Some(d.at) else None
  }

  lemma MailOneEffect(w: World, before: seq<Item>, after: seq<Item>, prefs: Prefs, d: Delivery, last: int, id: int)
    ensures var w' := MailOne(w, before, after, prefs, d, last);
            if id == last then OneMailSent(w, w', id, MailFor(before, after, prefs, d, id),
              RecordFor(before, after, prefs, d, id))
            else OneMailSent(w, w', id, None, None)
  {
    if Mailed(before, after, prefs, last) {
      var mail := Mail(last, Find(after, last).value.status, last in d.accepts);
      assert (w.log + [mail])[..|w.log|] == w.log;
    }
  }

  /** What the mails do: they touch nothing but the notification time of mailed incidents. */
  lemma {:induction false} MailAllEffect(w: World, before: seq<Item>, after: seq<Item>, prefs: Prefs, d: Delivery,
                                         order: seq<int>, id: int)
    requires Distinct(order)
    ensures var w' := MailAll(w, before, after, prefs, d, order);
            if id in order then OneMailSent(w, w', id, MailFor(before, after, prefs, d, id),
              RecordFor(before, after, prefs, d, id))
            else OneMailSent(w, w', id, None, None)
  {
    if order != [] {
      var init, last := order[..|order| - 1], order[|order| - 1];
      MailAllEffect(w, before, after, prefs, d, init, id);
      MailOneEffect(MailAll(w, before, after, prefs, d, init), before, after, prefs, d, last, id);
      assert order == init + [last];
      forall k | 0 <= k < |init| ensures init[k] != last {
        assert order[k] != order[|order| - 1];
      }
    }
  }

  /** Mails about an incident in a given status. */
  function Count(log: seq<Mail>, id: int, status: Status): nat {
    if log == [] then 0
    else Count(log[..|log| - 1], id, status)
         + if log[|log| - 1].id == id && log[|log| - 1].status == status then 1 else 0
  }

  /** Accepted mails that report an incident as open. */
  function OpenAccepted(log: seq<Mail>, id: int): nat {
    if log == [] then 0
    else OpenAccepted(log[..|log| - 1], id)
         + if log[|log| - 1] == Mail(id, Open, true) then 1 else 0
  }

  // ---------- What every run keeps

  /** At most one mail about the incident's resolution, tried once it is resolved. */
  ghost predicate ResolvedOk(w: World, id: int) {
    && Count(w.log, id, Resolved) <= 1
    && (id >= w.db.nextId ==> Count(w.log, id, Resolved) == 0)
    && (id in w.db.rows && Count(w.log, id, Resolved) == 1 ==> w.db.rows[id].status == Resolved)
  }

  /** At most one accepted mail that reports it as open, after which a notification time is on
      record. */
  ghost predicate OpenOk(w: World, id: int) {
    && OpenAccepted(w.log, id) <= 1
    && (id >= w.db.nextId ==> OpenAccepted(w.log, id) == 0)
    && (id in w.db.rows && OpenAccepted(w.log, id) == 1 ==> w.db.rows[id].lastNotified.Some?)
  }

  ghost predicate Inv(w: World) {
    Numbered(w.db) && forall id :: ResolvedOk(w, id)
  }

  /** If a mail that reports the incident as open goes out and is accepted, that is recorded. */
  predicate Recorded(e: Event, id: int) {
    && e.Sync? && id in e.order && Mailed(e.before, e.after, e.prefs, id)
    && Find(e.after, id).value.status == Open && id in e.delivery.accepts
    ==> id in e.delivery.records
  }

  /** A touched incident that was not listed has just been inserted. */
  lemma TouchedIsListedOrNew(db: Db, before: seq<Item>, alerts: seq<Alert>, now: int, id: int)
    requires IsWindow(db.rows, before) && id in Touched(db, before, alerts, now)
    ensures Listed(before, id) || id >= db.nextId
  {
    if id in SeenIds(ActiveByFingerprint(before), alerts) {
      SeenIsListed(before, alerts, id);
    }
  }

  lemma SyncStep(w: World, e: Event)
    requires Numbered(w.db) && e.Sync? && Possible(w, e)
    ensures Numbered(Step(w, e).db) && Forward(w.db, Step(w, e).db)
  {
    SyncedEffect(w.db, e.before, e.alerts, e.now, e.progress);
    var w1 := w.(db := Synced(w.db, e.before, e.alerts, e.now, e.progress));
    var w2 := Step(w, e);
    forall id ensures w2.db.rows.Keys == w1.db.rows.Keys && w2.db.nextId == w1.db.nextId
    ensures id in w1.db.rows ==>
            w2.db.rows[id].status == w1.db.rows[id].status && w2.db.rows[id].fingerprint == w1.db.rows[id].fingerprint
    {
      MailAllEffect(w1, e.before, e.after, e.prefs, e.delivery, e.order, id);
    }
    forall id | id in w2.db.rows && id < w.db.nextId
      ensures id in w.db.rows && Rank(w.db.rows[id].status) <= Rank(w2.db.rows[id].status)
      ensures w.db.rows[id].fingerprint == w2.db.rows[id].fingerprint
    {
      assert Later(w.db.rows[id], w1.db.rows[id]);
    }
  }

  /** Why a mail goes out: the incident is new or nobody was told it is open, or it has just been
      resolved. */
  lemma WhyMailed(w: World, e: Event, id: int)
    requires Numbered(w.db) && e.Sync? && Possible(w, e)
    requires id in e.order && Mailed(e.before, e.after, e.prefs, id)
    ensures var rows := Synced(w.db, e.before, e.alerts, e.now, e.progress).rows;
            var current := Find(e.after, id).value;
            && id in rows && current == rows[id] && current.status != Dismissed
            && (current.status == Open ==> id >= w.db.nextId || (id in w.db.rows && w.db.rows[id].lastNotified == None))
            && (current.status == Resolved ==> id in w.db.rows && w.db.rows[id].status != Resolved)
  {
    var db1 := Synced(w.db, e.before, e.alerts, e.now, e.progress);
    SyncedEffect(w.db, e.before, e.alerts, e.now, e.progress);
    FindIn(w.db.rows, e.before, id);
    FindIn(db1.rows, e.after, id);
    TouchedIsListedOrNew(w.db, e.before, e.alerts, e.now, id);
    if id in w.db.rows {
      assert Later(w.db.rows[id], db1.rows[id]);
    }
  }

  lemma SyncResolvedOk(w: World, e: Event, id: int)
    requires Numbered(w.db) && ResolvedOk(w, id) && e.Sync? && Possible(w, e)
    ensures ResolvedOk(Step(w, e), id)
  {
    var db1 := Synced(w.db, e.before, e.alerts, e.now, e.progress);
    SyncedEffect(w.db, e.before, e.alerts, e.now, e.progress);
    if id in w.db.rows {
      assert Later(w.db.rows[id], db1.rows[id]);
    }
    if id in e.order && Mailed(e.before, e.after, e.prefs, id) {
      WhyMailed(w, e, id);
    }
    MailAllEffect(w.(db := db1), e.before, e.after, e.prefs, e.delivery, e.order, id);
  }

  /** A synchronisation keeps the limit of one open mail exactly if it records the one it sends. */
  lemma SyncOpenOk(w: World, e: Event, id: int)
    requires Numbered(w.db) && OpenOk(w, id) && e.Sync? && Possible(w, e)
    ensures OpenOk(Step(w, e), id) <==> Recorded(e, id)
  {
    var db1 := Synced(w.db, e.before, e.alerts, e.now, e.progress);
    SyncedEffect(w.db, e.before, e.alerts, e.now, e.progress);
    if id in w.db.rows {
      assert Later(w.db.rows[id], db1.rows[id]);
    }
    if id in e.order && Mailed(e.before, e.after, e.prefs, id) {
      WhyMailed(w, e, id);
    }
    MailAllEffect(w.(db := db1), e.before, e.after, e.prefs, e.delivery, e.order, id);
  }

  lemma StepMovesForward(w: World, e: Event)
    requires Numbered(w.db) && Possible(w, e)
    ensures Numbered(Step(w, e).db) && Forward(w.db, Step(w, e).db)
  {
    if e.Sync? {
      SyncStep(w, e);
    }
  }

  lemma StepKeepsInv(w: World, e: Event)
    requires Inv(w) && Possible(w, e)
    ensures Inv(Step(w, e)) && Forward(w.db, Step(w, e).db)
  {
    StepMovesForward(w, e);
    forall id ensures ResolvedOk(Step(w, e), id) {
      assert ResolvedOk(w, id);
      if e.Sync? {
        SyncResolvedOk(w, e, id);
      }
    }
  }

  lemma ForwardTransitive(a: Db, b: Db, c: Db)
    requires Forward(a, b) && Forward(b, c)
    ensures Forward(a, c)
  {
  }

  /** Every run, whatever fails in it: resolved is terminal, dismissed never returns to open, and
      the limit of one mail about each resolution is kept. */
  lemma {:induction false} EveryRun(w: World, events: seq<Event>)
    requires Numbered(w.db) && Runs(w, events)
    ensures Numbered(After(w, events).db) && Forward(w.db, After(w, events).db)
    ensures Inv(w) ==> Inv(After(w, events))
    decreases |events|
  {
    if events != [] {
      var w1 := Step(w, events[0]);
      StepMovesForward(w, events[0]);
      if Inv(w) {
        StepKeepsInv(w, events[0]);
      }
      EveryRun(w1, events[1..]);
      ForwardTransitive(w.db, w1.db, After(w, events).db);
    }
  }

  /** The limit of one open mail holds all along the run. */
  ghost predicate OpenOkThroughout(w: World, events: seq<Event>, id: int)
    requires Runs(w, events)
    decreases |events|
  {
    OpenOk(w, id) && (events != [] ==> OpenOkThroughout(Step(w, events[0]), events[1..], id))
  }

  /** It does exactly in the runs in which every accepted open mail about the incident is recorded,
      whatever happens to the mails about the others. */
  lemma {:induction false} EveryRunOpens(w: World, events: seq<Event>, id: int)
    requires Numbered(w.db) && OpenOk(w, id) && Runs(w, events)
    ensures OpenOkThroughout(w, events, id) <==> forall e :: e in events ==> Recorded(e, id)
    ensures OpenOkThroughout(w, events, id) ==> OpenOk(After(w, events), id)
    decreases |events|
  {
    if events != [] {
      var e, rest := events[0], events[1..];
      assert e in events && events == [e] + rest;
      StepMovesForward(w, e);
      if e.Sync? {
        SyncOpenOk(w, e, id);
      }
      if OpenOk(Step(w, e), id) {
        EveryRunOpens(Step(w, e), rest, id);
      }
    }
  }

  const EMPTY := World(Db(map[], 1), [])

  /** The two mail limits, from an empty table on. */
  lemma MailLimits(events: seq<Event>, id: int)
    requires Runs(EMPTY, events)
    ensures Count(After(EMPTY, events).log, id, Resolved) <= 1
    ensures (forall e :: e in events ==> Recorded(e, id)) ==> OpenAccepted(After(EMPTY, events).log, id) <= 1
  {
    EveryRun(EMPTY, events);
    assert ResolvedOk(After(EMPTY, events), id);
    if forall e :: e in events ==> Recorded(e, id) {
      EveryRunOpens(EMPTY, events, id);
    }
  }

  /** An open incident nobody was told about is mailed by the next complete synchronisation in
      which its alert still fires, if open mails are wanted and at most 100 rows remain active. */
  lemma UnsentMailIsTried(w: World, e: Event, id: int)
    requires Numbered(w.db) && e.Sync? && Possible(w, e) && e.prefs.onOpen
    requires Completed(e.progress, e.before, e.alerts) && id in e.order
    requires id in w.db.rows && w.db.rows[id].status == Open && w.db.rows[id].lastNotified == None
    requires id in SeenIds(ActiveByFingerprint(e.before), e.alerts)
    requires |ActiveIds(Synced(w.db, e.before, e.alerts, e.now, e.progress).rows)| <= WINDOW
    ensures Count(Step(w, e).log, id, Open) == Count(w.log, id, Open) + 1
    ensures OpenAccepted(Step(w, e).log, id) == OpenAccepted(w.log, id) + if id in e.delivery.accepts then 1 else 0
    ensures id in Step(w, e).db.rows && Step(w, e).db.rows[id].status == Open
    ensures Step(w, e).db.rows[id].lastNotified.Some? <==> id in e.delivery.accepts && id in e.delivery.records
  {
    UnsentIsMailed(w, e, id);
    var db1 := Synced(w.db, e.before, e.alerts, e.now, e.progress);
    MailAllEffect(w.(db := db1), e.before, e.after, e.prefs, e.delivery, e.order, id);
  }

  lemma ResolutionCalls(before: seq<Item>, after: seq<Item>, prefs: Prefs, d: Delivery, id: int)
    requires Find(before, id).Some? && Find(before, id).value.status != Resolved
    requires Find(after, id).Some? ==> Find(after, id).value.status == Resolved
    ensures var mail := MailFor(before, after, prefs, d, id);
            && (mail.Some? <==> prefs.onResolved && Find(after, id).Some?)
            && (mail.Some? ==> mail.value.status == Resolved)
  {
  }

  /** A resolution is mailed exactly if resolution mails are wanted and the rows read back show it. */
  lemma ResolutionIsMailed(w: World, e: Event, id: int)
    requires Numbered(w.db) && e.Sync? && Possible(w, e) && id in e.order
    requires id in w.db.rows && w.db.rows[id].status != Resolved && Listed(e.before, id)
    requires var rows := Synced(w.db, e.before, e.alerts, e.now, e.progress).rows;
             id in rows && rows[id].status == Resolved
    ensures Count(Step(w, e).log, id, Resolved)
            == Count(w.log, id, Resolved) + if e.prefs.onResolved && Listed(e.after, id) then 1 else 0
  {
    var db1 := Synced(w.db, e.before, e.alerts, e.now, e.progress);
    FindIn(w.db.rows, e.before, id);
    FindIn(db1.rows, e.after, id);
    ResolutionCalls(e.before, e.after, e.prefs, e.delivery, id);
    MailAllEffect(w.(db := db1), e.before, e.after, e.prefs, e.delivery, e.order, id);
  }

  /** No mail goes out that is not wanted, and none about an incident that was not visited. */
  lemma MailsAreWanted(w: World, e: Event, id: int)
    requires Possible(w, e) && e.Sync?
    ensures !e.prefs.onOpen || id !in e.order ==> Count(Step(w, e).log, id, Open) == Count(w.log, id, Open)
    ensures !e.prefs.onResolved || id !in e.order ==> Count(Step(w, e).log, id, Resolved) == Count(w.log, id, Resolved)
  {
    var db1 := Synced(w.db, e.before, e.alerts, e.now, e.progress);
    MailAllEffect(w.(db := db1), e.before, e.after, e.prefs, e.delivery, e.order, id);
  }

  // ---------- Without a record

  /** A synchronisation that inserts nothing and mails incident 1 again, unrecorded. */
  function Unrecorded(before: seq<Item>, after: seq<Item>, alert: Alert, now: int): Event {
    Sync(before, [alert], now, Progress(1, |before|), after, [1], Prefs(true, true), Delivery({1}, {}, now))
  }

  lemma SyncedTable(db: Db, items: seq<Item>, alert: Alert, now: int, active: map<string, Item>, seen: set<int>,
                    after: Db)
    requires active == ActiveByFingerprint(items) && seen == SeenIds(active, [alert])
    requires after == SyncAlert(db, active, alert, now)
    requires forall k :: 0 <= k < |items| ==> items[k].id in seen
    ensures Synced(db, items, [alert], now, Progress(1, |items|)) == after
            && SyncAlerts(db, active, [alert], now) == after
  {
    assert [alert][..1] == [alert] && [alert][..0] == [] && items[..|items|] == items;
    assert SyncAlerts(db, active, [alert], now) == SyncAlert(SyncAlerts(db, active, [], now), active, alert, now);
    NothingResolved(after.rows, items, seen, now);
  }

  lemma {:induction false} NothingResolved(rows: map<int, Row>, items: seq<Item>, seen: set<int>, now: int)
    requires forall k :: 0 <= k < |items| ==> items[k].id in seen
    ensures ResolveItems(rows, items, seen, now) == rows
  {
    if items != [] {
      NothingResolved(rows, items[..|items| - 1], seen, now);
    }
  }

  lemma SingleWindow(row: Row)
    ensures IsWindow(map[1 := row], [Item(1, row)]) && Find([Item(1, row)], 1) == Some(row)
    ensures row.status == Open ==> ActiveByFingerprint([Item(1, row)]) == map[row.fingerprint := Item(1, row)]
  {
    var items := [Item(1, row)];
    assert items[0].id == 1 && Listed(items, 1);
    assert items[..0] == [];
    assert ActiveByFingerprint(items[..0]) == map[];
  }

  lemma SingleMail(w: World, before: seq<Item>, after: seq<Item>, prefs: Prefs, d: Delivery)
    ensures MailAll(w, before, after, prefs, d, [1]) == MailOne(w, before, after, prefs, d, 1)
  {
    assert [1][..0] == [];
    assert MailAll(w, before, after, prefs, d, []) == w;
  }

  lemma FirstUnrecorded(alert: Alert)
    ensures var row := FreshRow(alert, 1);
            var e := Unrecorded([], [Item(1, row)], alert, 1);
            Possible(EMPTY, e) && Step(EMPTY, e) == World(Db(map[1 := row], 2), [Mail(1, Open, true)])
  {
    var row := FreshRow(alert, 1);
    var e := Unrecorded([], [Item(1, row)], alert, 1);
    SyncedTable(EMPTY.db, [], alert, 1, map[], {}, Db(map[1 := row], 2));
    SingleWindow(row);
    assert IsWindow(map[], []);
    assert 1 in Touched(EMPTY.db, [], [alert], 1);
    SingleMail(World(Db(map[1 := row], 2), []), [], e.after, e.prefs, e.delivery);
    assert [] + [Mail(1, Open, true)] == [Mail(1, Open, true)];
  }

  lemma SecondUnrecorded(alert: Alert)
    ensures var row := FreshRow(alert, 1);
            var later := row.(lastSeen := 2);
            var e := Unrecorded([Item(1, row)], [Item(1, later)], alert, 2);
            var w := World(Db(map[1 := row], 2), [Mail(1, Open, true)]);
            Possible(w, e) && Step(w, e) == World(Db(map[1 := later], 2), [Mail(1, Open, true), Mail(1, Open, true)])
  {
    var row := FreshRow(alert, 1);
    var later := row.(lastSeen := 2);
    var e := Unrecorded([Item(1, row)], [Item(1, later)], alert, 2);
    var w := World(Db(map[1 := row], 2), [Mail(1, Open, true)]);
    SingleWindow(row);
    SingleWindow(later);
    var active := map[alert.id := Item(1, row)];
    assert alert in [alert];
    assert SeenIds(active, [alert]) == {1};
    SyncedTable(w.db, e.before, alert, 2, active, {1}, Db(map[1 := later], 2));
    assert 1 in Touched(w.db, e.before, [alert], 2);
    SingleMail(World(Db(map[1 := later], 2), w.log), e.before, e.after, e.prefs, e.delivery);
  }

  lemma TwoAccepted()
    ensures OpenAccepted([Mail(1, Open, true), Mail(1, Open, true)], 1) == 2
  {
    var log := [Mail(1, Open, true), Mail(1, Open, true)];
    assert log[..1] == [Mail(1, Open, true)] && [Mail(1, Open, true)][..0] == [];
    assert OpenAccepted([Mail(1, Open, true)], 1) == OpenAccepted([], 1) + 1;
  }

  /** The run that breaks the open limit: the record fails, and the second synchronisation sends
      the open mail again. */
  lemma UnrecordedMailGoesOutAgain(alert: Alert)
    ensures var row := FreshRow(alert, 1);
            var later := row.(lastSeen := 2);
            var run := [Unrecorded([], [Item(1, row)], alert, 1),
                        Unrecorded([Item(1, row)], [Item(1, later)], alert, 2)];
            Runs(EMPTY, run) && OpenAccepted(After(EMPTY, run).log, 1) == 2
  {
    var row := FreshRow(alert, 1);
    var later := row.(lastSeen := 2);
    var first := Unrecorded([], [Item(1, row)], alert, 1);
    var second := Unrecorded([Item(1, row)], [Item(1, later)], alert, 2);
    FirstUnrecorded(alert);
    SecondUnrecorded(alert);
    TwoAccepted();
    var run := [first, second];
    var w1, w2 := Step(EMPTY, first), Step(Step(EMPTY, first), second);
    assert run[1..] == [second] && [second][1..] == [];
    assert Runs(w2, []) && Runs(w1, [second]) && Runs(EMPTY, run);
    assert After(EMPTY, run) == After(w1, [second]) == After(w2, []) == w2;
  }

  lemma UnsentIsMailed(w: World, e: Event, id: int)
    requires Numbered(w.db) && e.Sync? && Possible(w, e) && e.prefs.onOpen
    requires Completed(e.progress, e.before, e.alerts) && id in e.order
    requires id in w.db.rows && w.db.rows[id].status == Open && w.db.rows[id].lastNotified == None
    requires id in SeenIds(ActiveByFingerprint(e.before), e.alerts)
    requires |ActiveIds(Synced(w.db, e.before, e.alerts, e.now, e.progress).rows)| <= WINDOW
    ensures Mailed(e.before, e.after, e.prefs, id) && Find(e.after, id).value.status == Open
    ensures var rows := Synced(w.db, e.before, e.alerts, e.now, e.progress).rows;
            id in rows && rows[id].status == Open && rows[id].lastNotified == None
  {
    var db1 := Synced(w.db, e.before, e.alerts, e.now, e.progress);
    CompleteSync(w.db, e.before, e.alerts, e.now, e.progress);
    SeenStaysOpen(w.db, e.before, e.alerts, e.now, id);
    ListedAfterwards(db1.rows, e.after, id);
    SeenIsListed(e.before, e.alerts, id);
    FindIn(w.db.rows, e.before, id);
    FindIn(db1.rows, e.after, id);
  }

  lemma CompleteSync(db: Db, items: seq<Item>, alerts: seq<Alert>, now: int, p: Progress)
    requires ProgressOk(p, items, alerts) && Completed(p, items, alerts)
    ensures Synced(db, items, alerts, now, p).rows == SyncedRows(db, items, alerts, now)
  {
    assert alerts[..p.alerts] == alerts && items[..p.items] == items;
  }

  lemma SeenStaysOpen(db: Db, items: seq<Item>, alerts: seq<Alert>, now: int, id: int)
    requires Numbered(db) && IsWindow(db.rows, items)
    requires id in db.rows && id in SeenIds(ActiveByFingerprint(items), alerts)
    ensures var rows := SyncedRows(db, items, alerts, now);
            id in rows && rows[id].status == db.rows[id].status && rows[id].lastNotified == db.rows[id].lastNotified
  {
    var active := ActiveByFingerprint(items);
    var db1 := SyncAlerts(db, active, alerts, now);
    assert Current(db.rows, active);
    SyncAlertsEffect(db, active, alerts, now);
    assert Later(db.rows[id], db1.rows[id]);
    ResolveItemsEffect(db1.rows, items, SeenIds(active, alerts), now);
  }

  lemma ListedAfterwards(rows: map<int, Row>, items: seq<Item>, id: int)
    requires IsWindow(rows, items) && |ActiveIds(rows)| <= WINDOW
    requires id in rows && IsActive(rows[id])
    ensures Listed(items, id)
  {
    WindowHoldsActive(rows, items);
    assert id in ActiveIds(rows);
  }

  lemma SeenIsListed(items: seq<Item>, alerts: seq<Alert>, id: int)
    requires id in SeenIds(ActiveByFingerprint(items), alerts)
    ensures Listed(items, id)
  {
    var active := ActiveByFingerprint(items);
    var k := SeenHasAlert(active, alerts, id);
    var j :| 0 <= j < |items| && items[j] == active[alerts[k].id];
    assert items[j].id == id;
  }
}
