/** The probe scheduler: a map of status entries under a lock, one goroutine per scheduled probe,
    and a channel that lets 8 probes run at once. Every critical section and channel operation is
    one atomic step; goroutines interleave freely between them. Times are integers, 0 is zero time. */
module Status {
  import opened Text

  const PARALLEL: nat := 8
  const STALE_AFTER: int := 20_000_000_000

  datatype Health = Unset | Checking | Online | Offline

  datatype Entry = Entry(status: Health, checkedAt: int, onlineSince: int, refreshing: bool)

  const ZERO_ENTRY := Entry(Unset, 0, 0, false)

  /** A probe goroutine: before the channel send, between send and receive, before the final lock. */
  datatype Worker =
    | Queued(key: string)
    | Probing(key: string)
    | Reporting(key: string, found: Health)

  /** Shared state, and the time of the latest report. */
  datatype State = State(entries: map<string, Entry>, tokens: nat, workers: map<nat, Worker>,
                         nextId: nat, clock: int)

  const INITIAL := State(map[], 0, map[], 0, 0)

  datatype Event =
    | Schedule(key: string)
    | Acquire(id: nat)
    | ProbeReturns(id: nat, online: bool)
    | Report(id: nat, now: int)

  function Get(entries: map<string, Entry>, key: string): Entry {
    if key in entries then entries[key] else ZERO_ENTRY
  }

  predicate Enabled(st: State, e: Event) {
    match e
    case Schedule(_) => true
    case Acquire(id) => id in st.workers && st.workers[id].Queued? && st.tokens < PARALLEL
    case ProbeReturns(id, _) => id in st.workers && st.workers[id].Probing? && st.tokens > 0
    case Report(id, now) => id in st.workers && st.workers[id].Reporting? && st.clock <= now && 0 < now
  }

  /** The entry after a probe has reported. */
  function Reported(entry: Entry, found: Health, now: int): Entry {
    Entry(found, now,
          if found != Online then 0
          else if entry.status != Online || entry.onlineSince == 0 then now
          else entry.onlineSince,
          false)
  }

  function Next(st: State, e: Event): State
    requires Enabled(st, e)
  {
    match e
    case Schedule(key) =>
      var entry := Get(st.entries, key);
      if entry.refreshing then st
      else
        st.(entries := st.entries[key := entry.(refreshing := true,
                                               status := if entry.status == Unset then Checking else entry.status)],
            workers := st.workers[st.nextId := Queued(key)],
            nextId := st.nextId + 1)
    case Acquire(id) =>
      st.(tokens := st.tokens + 1, workers := st.workers[id := Probing(st.workers[id].key)])
    case ProbeReturns(id, online) =>
      st.(tokens := st.tokens - 1,
          workers := st.workers[id := Reporting(st.workers[id].key, if online then Online else Offline)])
    case Report(id, now) =>
      var w := st.workers[id];
      st.(entries := st.entries[w.key := Reported(Get(st.entries, w.key), w.found, now)],
          workers := st.workers - {id},
          clock := now)
  }

  // ---------- What every step keeps

  function Running(workers: map<nat, Worker>): set<nat> {
    set id | id in workers && workers[id].Probing?
  }

  predicate EntryOk(entry: Entry, clock: int) {
    && (entry.onlineSince != 0 <==> entry.status == Online)
    && 0 <= entry.onlineSince <= entry.checkedAt <= clock
  }

  /** A flag is set exactly when a goroutine for its key is pending, and then exactly one is. */
  ghost predicate Matched(entries: map<string, Entry>, workers: map<nat, Worker>) {
    && (forall id :: id in workers ==> workers[id].key in entries && entries[workers[id].key].refreshing)
    && (forall a, b :: a in workers && b in workers && workers[a].key == workers[b].key ==> a == b)
    && (forall k :: k in entries && entries[k].refreshing ==> exists id :: id in workers && workers[id].key == k)
  }

  /** The channel holds one token per running probe. */
  ghost predicate Counted(workers: map<nat, Worker>, tokens: nat) {
    tokens == |Running(workers)| && tokens <= PARALLEL
  }

  ghost predicate Sound(st: State) {
    && (forall k :: k in st.entries ==> EntryOk(st.entries[k], st.clock))
    && (forall id :: id in st.workers ==> id < st.nextId)
    && (forall id :: id in st.workers && st.workers[id].Reporting? ==> st.workers[id].found in {Online, Offline})
    && st.clock >= 0
  }

  ghost predicate Inv(st: State) {
    Matched(st.entries, st.workers) && Counted(st.workers, st.tokens) && Sound(st)
  }

  lemma StepKeepsInv(st: State, e: Event)
    requires Inv(st) && Enabled(st, e)
    ensures Inv(Next(st, e))
  {
    match e
    case Schedule(key) => ScheduleKeepsInv(st, key);
    case Acquire(id) => AcquireKeepsInv(st, id);
    case ProbeReturns(id, online) => ReleaseKeepsInv(st, id, online);
    case Report(id, now) => ReportKeepsInv(st, id, now);
  }

  /** A goroutine that moves on without finishing leaves flags and goroutines matched. */
  lemma MovingKeepsMatch(entries: map<string, Entry>, workers: map<nat, Worker>, id: nat, w: Worker)
    requires Matched(entries, workers) && id in workers && w.key == workers[id].key
    ensures Matched(entries, workers[id := w])
  {
    var workers' := workers[id := w];
    forall k | k in entries && entries[k].refreshing ensures exists o :: o in workers' && workers'[o].key == k {
      var o :| o in workers && workers[o].key == k;
      assert o in workers' && workers'[o].key == k;
    }
  }

  lemma AcquireKeepsInv(st: State, id: nat)
    requires Inv(st) && Enabled(st, Acquire(id))
    ensures Inv(Next(st, Acquire(id)))
  {
    var w := Probing(st.workers[id].key);
    MovingKeepsMatch(st.entries, st.workers, id, w);
    assert Running(st.workers[id := w]) == Running(st.workers) + {id};
  }

  lemma ReleaseKeepsInv(st: State, id: nat, online: bool)
    requires Inv(st) && Enabled(st, ProbeReturns(id, online))
    ensures Inv(Next(st, ProbeReturns(id, online)))
  {
    var w := Reporting(st.workers[id].key, if online then Online else Offline);
    MovingKeepsMatch(st.entries, st.workers, id, w);
    assert Running(st.workers[id := w]) == Running(st.workers) - {id};
  }

  /** A goroutine that starts for an unset flag, which is then set. */
  lemma StartingKeepsMatch(entries: map<string, Entry>, workers: map<nat, Worker>, key: string, entry: Entry, id: nat)
    requires Matched(entries, workers) && id !in workers
    requires !Get(entries, key).refreshing && entry.refreshing
    ensures Matched(entries[key := entry], workers[id := Queued(key)])
  {
    var entries', workers' := entries[key := entry], workers[id := Queued(key)];
    forall k | k in entries' && entries'[k].refreshing ensures exists o :: o in workers' && workers'[o].key == k {
      if k == key {
        assert id in workers';
      } else {
        var o :| o in workers && workers[o].key == k;
        assert o in workers' && workers'[o].key == k;
      }
    }
  }

  lemma ScheduleKeepsInv(st: State, key: string)
    requires Inv(st)
    ensures Inv(Next(st, Schedule(key)))
  {
    var st' := Next(st, Schedule(key));
    if !Get(st.entries, key).refreshing {
      StartingKeepsMatch(st.entries, st.workers, key, st'.entries[key], st.nextId);
      assert Running(st'.workers) == Running(st.workers);
    }
  }

  /** A goroutine that ends and clears its flag. */
  lemma EndingKeepsMatch(entries: map<string, Entry>, workers: map<nat, Worker>, id: nat, entry: Entry)
    requires Matched(entries, workers) && id in workers && !entry.refreshing
    ensures Matched(entries[workers[id].key := entry], workers - {id})
  {
    var entries', workers' := entries[workers[id].key := entry], workers - {id};
    forall k | k in entries' && entries'[k].refreshing ensures exists o :: o in workers' && workers'[o].key == k {
      var o :| o in workers && workers[o].key == k;
      assert o in workers' && workers'[o].key == k;
    }
  }

  lemma ReportKeepsInv(st: State, id: nat, now: int)
    requires Inv(st) && Enabled(st, Report(id, now))
    ensures Inv(Next(st, Report(id, now)))
  {
    var st' := Next(st, Report(id, now));
    EndingKeepsMatch(st.entries, st.workers, id, st'.entries[st.workers[id].key]);
    assert Running(st'.workers) == Running(st.workers);
  }

  /** All events can happen, one after another. */
  ghost predicate Runs(st: State, events: seq<Event>)
    decreases |events|
  {
    events == [] || (Enabled(st, events[0]) && Runs(Next(st, events[0]), events[1..]))
  }

  ghost function After(st: State, events: seq<Event>): State
    requires Runs(st, events)
    decreases |events|
  {
    if events == [] then st else After(Next(st, events[0]), events[1..])
  }

  /** Every interleaving keeps the invariant. */
  lemma {:induction false} EveryInterleavingIsSafe(st: State, events: seq<Event>)
    requires Inv(st) && Runs(st, events)
    ensures Inv(After(st, events))
    decreases |events|
  {
    if events != [] {
      StepKeepsInv(st, events[0]);
      EveryInterleavingIsSafe(Next(st, events[0]), events[1..]);
    }
  }

  /** From the start: one pending goroutine per raised flag, at most 8 probes at once, and an
      online-since time exactly while online, never after the last check. */
  lemma SafeFromStart(events: seq<Event>)
    requires Runs(INITIAL, events)
    ensures var st := After(INITIAL, events);
            && (forall k :: k in st.entries ==>
                  (st.entries[k].refreshing <==> exists id :: id in st.workers && st.workers[id].key == k))
            && (forall a, b :: a in st.workers && b in st.workers && a != b ==> st.workers[a].key != st.workers[b].key)
            && |Running(st.workers)| <= PARALLEL
            && (forall k :: k in st.entries ==> EntryOk(st.entries[k], st.clock))
  {
    assert Running(INITIAL.workers) == {};
    EveryInterleavingIsSafe(INITIAL, events);
  }

  /** The key shows Online in every state of the run. */
  ghost predicate StaysOnline(st: State, events: seq<Event>, key: string)
    requires Runs(st, events)
    decreases |events|
  {
    && Get(st.entries, key).status == Online
    && (events == [] || StaysOnline(Next(st, events[0]), events[1..], key))
  }

  /** While a key stays online, whatever else is going on, its online-since time is fixed. */
  lemma {:induction false} OnlineSinceIsFixed(st: State, events: seq<Event>, key: string)
    requires Inv(st) && Runs(st, events) && StaysOnline(st, events, key)
    ensures Get(After(st, events).entries, key).onlineSince == Get(st.entries, key).onlineSince
    decreases |events|
  {
    if events != [] {
      StepKeepsInv(st, events[0]);
      var st' := Next(st, events[0]);
      assert Get(st'.entries, key).onlineSince == Get(st.entries, key).onlineSince;
      OnlineSinceIsFixed(st', events[1..], key);
    }
  }

  lemma {:induction false} AfterConcat(st: State, first: seq<Event>, rest: seq<Event>)
    requires Runs(st, first) && Runs(After(st, first), rest)
    ensures Runs(st, first + rest) && After(st, first + rest) == After(After(st, first), rest)
    decreases |first|
  {
    if first == [] {
      assert first + rest == rest;
    } else {
      AfterConcat(Next(st, first[0]), first[1..], rest);
      assert (first + rest)[1..] == first[1..] + rest;
    }
  }

  lemma RunsCons(st: State, e: Event, events: seq<Event>)
    requires Enabled(st, e) && Runs(Next(st, e), events)
    ensures Runs(st, [e] + events) && After(st, [e] + events) == After(Next(st, e), events)
  {
    assert ([e] + events)[1..] == events;
  }

  function StepsLeft(w: Worker): nat {
    match w
    case Queued(_) => 3
    case Probing(_) => 2
    case Reporting(_, _) => 1
  }

  /** A goroutine that is past the limiter, or finds it open, can be run to its end. */
  lemma {:induction false} FinishWorker(st: State, id: nat) returns (events: seq<Event>)
    requires Inv(st) && id in st.workers && (st.workers[id].Queued? ==> st.tokens < PARALLEL)
    ensures Runs(st, events) && After(st, events).workers == st.workers - {id}
    decreases StepsLeft(st.workers[id])
  {
    var e := match st.workers[id]
      case Queued(_) => Acquire(id)
      case Probing(_) => ProbeReturns(id, true)
      case Reporting(_, _) => Report(id, st.clock + 1);
    assert st.workers[id].Probing? ==> id in Running(st.workers);
    var st' := Next(st, e);
    if e.Report? {
      events := [];
    } else {
      StepKeepsInv(st, e);
      events := FinishWorker(st', id);
      assert st'.workers - {id} == st.workers - {id};
    }
    RunsCons(st, e, events);
    events := [e] + events;
  }

  /** Some pending goroutine can always be run to its end: if the limiter is full, one inside it. */
  lemma FinishOne(st: State) returns (events: seq<Event>)
    requires Inv(st) && st.workers != map[]
    ensures Runs(st, events) && |After(st, events).workers| == |st.workers| - 1
  {
    var id :| id in st.workers;
    if st.tokens == PARALLEL {
      assert Running(st.workers) != {};
      id :| id in Running(st.workers);
    }
    events := FinishWorker(st, id);
    Shrinks(st.workers, id);
  }

  lemma Shrinks(workers: map<nat, Worker>, id: nat)
    requires id in workers
    ensures |workers - {id}| == |workers| - 1 && |workers.Keys| == |workers|
  {
    assert (workers - {id}).Keys == workers.Keys - {id};
    assert |(workers - {id}).Keys| == |workers - {id}|;
  }

  /** No deadlock: from every reachable state some interleaving lets every pending probe finish,
      after which no flag is raised and the channel is empty. */
  lemma {:induction false} EverythingCanFinish(st: State) returns (events: seq<Event>)
    requires Inv(st)
    ensures Runs(st, events)
    ensures var end := After(st, events);
            && end.workers == map[] && end.tokens == 0
            && forall k :: k in end.entries ==> !end.entries[k].refreshing
    decreases |st.workers|
  {
    if st.workers == map[] {
      events := [];
      assert Running(st.workers) == {};
    } else {
      var first := FinishOne(st);
      EveryInterleavingIsSafe(st, first);
      var rest := EverythingCanFinish(After(st, first));
      AfterConcat(st, first, rest);
      events := first + rest;
    }
  }

  // ---------- What is shown

  /** What a reader is told. */
  function Shown(entries: map<string, Entry>, key: string): Health {
    if Get(entries, key).status == Unset then Checking else Get(entries, key).status
  }

  /** A goroutine that holds its result keeps it until it reports; one that is gone stays gone. */
  lemma {:induction false} ResultIsKept(st: State, events: seq<Event>, id: nat)
    requires Inv(st) && Runs(st, events) && id < st.nextId
    requires id in st.workers ==> st.workers[id].Reporting?
    ensures id in After(st, events).workers ==> id in st.workers && After(st, events).workers[id] == st.workers[id]
    decreases |events|
  {
    if events != [] {
      StepKeepsInv(st, events[0]);
      ResultIsKept(Next(st, events[0]), events[1..], id);
    }
  }

  /** No goroutine of the key reports during the run. */
  ghost predicate NoReport(st: State, events: seq<Event>, key: string)
    requires Runs(st, events)
    decreases |events|
  {
    events == []
    || (!(events[0].Report? && st.workers[events[0].id].key == key) && NoReport(Next(st, events[0]), events[1..], key))
  }

  lemma {:induction false} ShownUntilReport(st: State, events: seq<Event>, key: string)
    requires Runs(st, events) && NoReport(st, events, key) && Get(st.entries, key).status != Unset
    ensures Get(After(st, events).entries, key).status == Get(st.entries, key).status
    ensures Get(After(st, events).entries, key).checkedAt == Get(st.entries, key).checkedAt
    ensures Get(After(st, events).entries, key).onlineSince == Get(st.entries, key).onlineSince
    decreases |events|
  {
    if events != [] {
      ShownUntilReport(Next(st, events[0]), events[1..], key);
    }
  }

  /** A key that has no result yet is marked as being checked when its first refresh starts; any
      other keeps what it shows. */
  lemma ScheduleShows(st: State, key: string)
    ensures var entry, entry' := Get(st.entries, key), Get(Next(st, Schedule(key)).entries, key);
            && entry'.refreshing
            && (!entry.refreshing && entry.status == Unset ==> entry'.status == Checking)
            && (entry.refreshing || entry.status != Unset ==> entry'.status == entry.status)
            && entry'.checkedAt == entry.checkedAt && entry'.onlineSince == entry.onlineSince
  {
  }

  /** A probe's own answer is what its report enters, whatever happens in between ... */
  lemma ProbeIsReported(st: State, id: nat, online: bool, between: seq<Event>, now: int)
    requires Inv(st) && Enabled(st, ProbeReturns(id, online))
    requires Runs(Next(st, ProbeReturns(id, online)), between)
    requires Enabled(After(Next(st, ProbeReturns(id, online)), between), Report(id, now))
    ensures var key := st.workers[id].key;
            var end := Next(After(Next(st, ProbeReturns(id, online)), between), Report(id, now));
            && Shown(end.entries, key) == (if online then Online else Offline)
            && Get(end.entries, key).checkedAt == now && !Get(end.entries, key).refreshing
            && (online ==> Get(end.entries, key).onlineSince
                           == var was := Get(After(Next(st, ProbeReturns(id, online)), between).entries, key);
                              if was.status == Online then was.onlineSince else now)
            && (forall k :: k != key ==>
                  Get(end.entries, k) == Get(After(Next(st, ProbeReturns(id, online)), between).entries, k))
  {
    StepKeepsInv(st, ProbeReturns(id, online));
    ResultIsKept(Next(st, ProbeReturns(id, online)), between, id);
    EveryInterleavingIsSafe(Next(st, ProbeReturns(id, online)), between);
  }

  /** ... and what every reader is told from then on, until the next report about the key. */
  lemma LastProbeIsShown(st: State, id: nat, online: bool, between: seq<Event>, now: int, later: seq<Event>)
    requires Inv(st) && Enabled(st, ProbeReturns(id, online))
    requires Runs(Next(st, ProbeReturns(id, online)), between)
    requires Enabled(After(Next(st, ProbeReturns(id, online)), between), Report(id, now))
    requires var end := Next(After(Next(st, ProbeReturns(id, online)), between), Report(id, now));
             Runs(end, later) && NoReport(end, later, st.workers[id].key)
    ensures var end := Next(After(Next(st, ProbeReturns(id, online)), between), Report(id, now));
            Shown(After(end, later).entries, st.workers[id].key) == if online then Online else Offline
  {
    ProbeIsReported(st, id, online, between, now);
    var end := Next(After(Next(st, ProbeReturns(id, online)), between), Report(id, now));
    ShownUntilReport(end, later, st.workers[id].key);
  }

  // ---------- The monitor

  class StatusMonitor {
    var entries: map<string, Entry>
    var tokens: nat
    var workers: map<nat, Worker>
    var nextId: nat
    var clock: int

    ghost function Abstract(): State
      reads this
    {
      State(entries, tokens, workers, nextId, clock)
    }

    constructor ()
      ensures Abstract() == INITIAL
    {
      entries, tokens, workers, nextId, clock := map[], 0, map[], 0, 0;
    }

    /** Answers from the entry as it is and schedules a probe if it is missing or stale. */
    method GetStatus(key: string, now: int) returns (status: Health)
      modifies this
      ensures status == Shown(old(entries), key) == Shown(entries, key)
      ensures Abstract() == if key !in old(entries) || now - old(entries[key]).checkedAt > STALE_AFTER
                            then Next(old(Abstract()), Schedule(key)) else old(Abstract())
    {
      if key !in entries {
        ScheduleRefresh(key);
        return Checking;
      }
      var entry := entries[key];
      if entry.status == Unset {
        entry := entry.(status := Checking);
      }
      if now - entry.checkedAt > STALE_AFTER {
        ScheduleRefresh(key);
      }
      return entry.status;
    }

    method ScheduleRefresh(key: string)
      modifies this
      ensures Abstract() == Next(old(Abstract()), Schedule(key))
    {
      var entry := Get(entries, key);
      if entry.refreshing {
        return;
      }
      entry := entry.(refreshing := true);
      if entry.status == Unset {
        entry := entry.(status := Checking);
      }
      entries := entries[key := entry];
      workers, nextId := workers[nextId := Queued(key)], nextId + 1;
    }

    /** The goroutine's send on the limiter channel; it blocks while the channel is full. */
    method AcquireToken(id: nat)
      requires Enabled(Abstract(), Acquire(id))
      modifies this
      ensures Abstract() == Next(old(Abstract()), Acquire(id))
    {
      tokens, workers := tokens + 1, workers[id := Probing(workers[id].key)];
    }

    /** The probe's return and the receive that frees the token. */
    method ReleaseToken(id: nat, online: bool)
      requires Enabled(Abstract(), ProbeReturns(id, online))
      modifies this
      ensures Abstract() == Next(old(Abstract()), ProbeReturns(id, online))
    {
      tokens := tokens - 1;
      workers := workers[id := Reporting(workers[id].key, if online then Online else Offline)];
    }

    /** The goroutine's final critical section. */
    method WriteResult(id: nat, now: int)
      requires Enabled(Abstract(), Report(id, now))
      modifies this
      ensures Abstract() == Next(old(Abstract()), Report(id, now))
    {
      var w := workers[id];
      var next := Get(entries, w.key);
      var previousStatus := next.status;
      next := next.(status := w.found, checkedAt := now);
      match w.found {
        case Online =>
          if previousStatus != Online || next.onlineSince == 0 {
            next := next.(onlineSince := next.checkedAt);
          }
        case _ =>
          next := next.(onlineSince := 0);
      }
      next := next.(refreshing := false);
      entries, workers, clock := entries[w.key := next], workers - {id}, now;
    }
  }
}
