/** The ban life cycle: rows of the ban table and the DROP rules that go with them, changed by
    bans, unbans and expiry, next to DDoS applications and rules of the administrator. */
module Fail2Ban {
  import opened Text
  import opened Sorting
  import opened RuleChains
  import opened Firewall
  import opened DDoSRules

  /** Server and address of a ban. */
  datatype Key = Key(serverID: string, ip: string)

  datatype BanRow = BanRow(hits: int, bannedAt: int, expiresAt: int)

  datatype State = State(input: Chains, forward: Chains, bans: map<Key, BanRow>)

  function Comment(k: Key): string {
    BAN + k.serverID + ":" + k.ip
  }

  function BanRule(k: Key, dest: string): Rule {
    Rule(Drop, k.ip, dest, 0, NoOptions, Comment(k))
  }

  /** What is outside the program: address parsing and the installed binaries. */
  datatype System = System(familyOf: FamilyOf, available: set<Family>)

  /** Refusals may differ from one deletion to the next. */
  type RefusedFor = string -> Refused

  // ---------- The operations as functions

  /** What the ban table and the kernel do during a ban: whether the row can be looked up, the rule
      is accepted, and the row is written. */
  datatype BanOutcome = BanOutcome(readable: bool, accepted: bool, written: bool)

  /** `banFail2BanIP`: a live row only gets a new count and expiry; otherwise a DROP rule is put at
      the top of INPUT and the row is written. A rule whose row cannot be written stays. */
  function Banned(st: State, sys: System, k: Key, hits: int, banTime: nat, now: int, dest: string,
                  did: BanOutcome): (State, bool) {
    match sys.familyOf(k.ip)
    case None => (st, false)
    case Some(f) =>
      if !did.readable then (st, false)
      else if k in st.bans && st.bans[k].expiresAt > now
      then
        var row := st.bans[k].(hits := hits, expiresAt := now + banTime);
        (if did.written then st.(bans := st.bans[k := row]) else st, true)
      else
        var spec := RuleSpec(Some(f), Some(1), BanRule(k, dest));
        var (input, ok) := RuleAdded(st.input, spec, sys.familyOf, did.accepted);
        if !ok then (st, false)
        else if !did.written then (st.(input := input), false)
        else (st.(input := input, bans := st.bans[k := BanRow(hits, now, now + banTime)]), true)
  }

  /** Rules deleted by the ban's comment in INPUT and FORWARD, and the row too, if that works. */
  function Lifted(st: State, sys: System, k: Key, refused: RefusedFor, removed: bool): State {
    State(Deleted(st.input, Comment(k), sys.available, refused("INPUT")),
          Deleted(st.forward, Comment(k), sys.available, refused("FORWARD")),
          if removed then st.bans - {k} else st.bans)
  }

  function Unbanned(st: State, sys: System, k: Key, refused: RefusedFor, removed: bool): State {
    if TrimSpace(k.ip) == "" then st else Lifted(st, sys, k, refused, removed)
  }

  /** The expired rows, lifted one after another in the order the table lists them. */
  function CleanedUp(st: State, sys: System, order: seq<Key>, refused: RefusedFor, removed: Key -> bool): State {
    if order == [] then st
    else
      var last := order[|order| - 1];
      Lifted(CleanedUp(st, sys, order[..|order| - 1], refused, removed), sys, last, refused, removed(last))
  }

  datatype Event =
    | Apply(serverID: string, policy: Policy, host: Host, entries: seq<string>, refused: Refused, budget: nat)
    | Ban(key: Key, hits: int, banTime: nat, now: int, dest: string, did: BanOutcome)
    | Unban(key: Key, refusedFor: RefusedFor, deleted: bool)
    | Cleanup(now: int, order: seq<Key>, refusedFor: RefusedFor, removed: Key -> bool)
    | UserRule(spec: RuleSpec, accepted: bool)
    | UserDelete(needle: string, refused: Refused)

  function Step(st: State, sys: System, e: Event): State {
    match e
    case Apply(sid, p, host, entries, refused, budget) =>
      st.(input := Applied(st.input, sid, p, host, entries, sys.familyOf, refused, budget).0)
    case Ban(k, hits, banTime, now, dest, did) => Banned(st, sys, k, hits, banTime, now, dest, did).0
    case Unban(k, refusedFor, deleted) => Unbanned(st, sys, k, refusedFor, deleted)
    case Cleanup(now, order, refusedFor, removed) => CleanedUp(st, sys, order, refusedFor, removed)
    case UserRule(spec, accepted) => st.(input := RuleAdded(st.input, spec, sys.familyOf, accepted).0)
    case UserDelete(needle, refused) => st.(input := Deleted(st.input, needle, sys.available, refused))
  }

  function After(st: State, sys: System, events: seq<Event>): State
    decreases |events|
  {
    if events == [] then st else After(Step(st, sys, events[0]), sys, events[1..])
  }

  // ---------- Order over every run

  /** Server numbers and addresses are free of the markers; the administrator's rules are none of
      the managed kinds. */
  predicate Tame(e: Event) {
    match e
    case Apply(sid, _, _, entries, _, _) => Neutral(sid) && forall x :: x in entries ==> Neutral(x)
    case UserRule(spec, _) => KindOf(spec.rule) == Unmanaged
    case _ => true
  }

  lemma BanRuleKind(k: Key, dest: string)
    ensures KindOf(BanRule(k, dest)) == Kind.Ban
  {
    PrefixIsContained(Comment(k), BAN);
  }

  lemma AddedKeepsOrder(c: Chains, spec: RuleSpec, familyOf: FamilyOf, accepted: bool)
    requires ChainsOrdered(c)
    requires KindOf(spec.rule) == Unmanaged || (KindOf(spec.rule) == Kind.Ban && spec.position == Some(1))
    ensures ChainsOrdered(RuleAdded(c, spec, familyOf, accepted).0)
  {
    var f := InferFamily(spec, familyOf);
    if f.Some? {
      var chain := c.Get(f.value);
      if spec.position.Some? {
        var k := if spec.position.value == 0 then 0 else spec.position.value - 1;
        if k <= |chain| {
          InsertOrdered(chain, KindOf, k, spec.rule);
        }
      } else {
        InsertOrdered(chain, KindOf, |chain|, spec.rule);
        assert chain[..|chain|] + [spec.rule] + chain[|chain|..] == chain + [spec.rule];
      }
    }
  }

  lemma {:induction false} CleanedUpKeepsOrder(st: State, sys: System, order: seq<Key>, refused: RefusedFor,
                                               removed: Key -> bool)
    requires ChainsOrdered(st.input)
    ensures ChainsOrdered(CleanedUp(st, sys, order, refused, removed).input)
  {
    if order != [] {
      var init, k := order[..|order| - 1], order[|order| - 1];
      CleanedUpKeepsOrder(st, sys, init, refused, removed);
      DeletedKeepsOrder(CleanedUp(st, sys, init, refused, removed).input, Comment(k), sys.available, refused("INPUT"));
    }
  }

  lemma StepKeepsOrder(st: State, sys: System, e: Event)
    requires ChainsOrdered(st.input) && Tame(e)
    ensures ChainsOrdered(Step(st, sys, e).input)
  {
    match e
    case Apply(sid, p, host, entries, refused, budget) =>
      AppliedKeepsOrder(st.input, sid, p, host, entries, sys.familyOf, refused, budget);
    case Ban(k, hits, banTime, now, dest, did) =>
      BanRuleKind(k, dest);
      var f := sys.familyOf(k.ip);
      if f.Some? {
        AddedKeepsOrder(st.input, RuleSpec(f, Some(1), BanRule(k, dest)), sys.familyOf, did.accepted);
      }
    case Unban(k, refusedFor, _) => DeletedKeepsOrder(st.input, Comment(k), sys.available, refusedFor("INPUT"));
    case Cleanup(now, order, refusedFor, removed) => CleanedUpKeepsOrder(st, sys, order, refusedFor, removed);
    case UserRule(spec, accepted) => AddedKeepsOrder(st.input, spec, sys.familyOf, accepted);
    case UserDelete(needle, refused) => DeletedKeepsOrder(st.input, needle, sys.available, refused);
  }

  /** Every run, whatever commands the kernel refuses: bans before whitelist accepts before limits. */
  lemma {:induction false} EveryRunIsOrdered(st: State, sys: System, events: seq<Event>)
    requires ChainsOrdered(st.input) && forall e :: e in events ==> Tame(e)
    ensures ChainsOrdered(After(st, sys, events).input)
    decreases |events|
  {
    if events != [] {
      assert events[0] in events;
      StepKeepsOrder(st, sys, events[0]);
      EveryRunIsOrdered(Step(st, sys, events[0]), sys, events[1..]);
    }
  }

  /** So after every run, of the managed rules a packet matches, the first is a ban if any is a
      ban, and is no limit if any is a whitelist accept. */
  lemma FirstMatchAfterEveryRun(st: State, sys: System, events: seq<Event>, f: Family, hits: Rule -> bool, k: nat)
    requires ChainsOrdered(st.input) && forall e :: e in events ==> Tame(e)
    requires var chain := After(st, sys, events).input.Get(f);
             k < |chain| && hits(chain[k]) && KindOf(chain[k]) != Unmanaged
    ensures var chain := After(st, sys, events).input.Get(f);
            var first := FirstManaged(chain, KindOf, hits);
            && first.Some? && hits(first.value)
            && (KindOf(chain[k]) == Kind.Ban ==> KindOf(first.value) == Kind.Ban)
            && (KindOf(chain[k]) == Whitelist ==> KindOf(first.value) != Limit)
  {
    EveryRunIsOrdered(st, sys, events);
    FirstMatchRespectsOrder(After(st, sys, events).input.Get(f), KindOf, hits, k);
  }

  // ---------- Bans and rows belong together

  /** No ban comment of another key contains this key's comment. */
  ghost predicate Separate(keys: iset<Key>) {
    forall a, b :: a in keys && b in keys && Contains(Comment(a), Comment(b)) ==> a == b
  }

  /** The rule drops what comes from the banned address, and says so. */
  predicate Blocks(r: Rule, k: Key) {
    r.target == Drop && r.source == k.ip && r.port == 0 && r.options == NoOptions && r.comment == Comment(k)
  }

  /** A rule that blocks the address stands in the chain of its family. */
  ghost predicate Backed(st: State, sys: System, k: Key) {
    && sys.familyOf(k.ip).Some?
    && exists r :: r in st.input.Get(sys.familyOf(k.ip).value) && Blocks(r, k)
  }

  /** The rule belongs to a row: it blocks the row's address. */
  ghost predicate Owned(st: State, r: Rule) {
    exists k :: k in st.bans && Blocks(r, k)
  }

  /** Every row is backed by a DROP rule, every ban rule is owned by a row. */
  ghost predicate TableOk(st: State, sys: System) {
    && (forall k :: k in st.bans ==> Backed(st, sys, k))
    && (forall f, r :: r in st.input.Get(f) && KindOf(r) == Kind.Ban ==> Owned(st, r))
    && (forall f :: f !in sys.available ==> st.input.Get(f) == [])
  }

  const SUCCESS: BanOutcome := BanOutcome(true, true, true)

  /** Everything works: commands are accepted, deletions not refused, the ban table is read and
      written, the keys are among `keys`. */
  ghost predicate Works(e: Event, sys: System, keys: iset<Key>) {
    match e
    case Apply(sid, _, host, entries, refused, _) =>
      Unrefused(refused) && host.available == sys.available && Neutral(sid) && forall x :: x in entries ==> Neutral(x)
    case Ban(k, _, _, _, _, did) =>
      did == SUCCESS && k in keys && (sys.familyOf(k.ip).Some? ==> sys.familyOf(k.ip).value in sys.available)
    case Unban(k, refusedFor, deleted) => k in keys && Unrefused(refusedFor("INPUT")) && deleted
    case Cleanup(_, order, refusedFor, removed) =>
      (forall k :: k in order ==> k in keys && removed(k)) && Unrefused(refusedFor("INPUT"))
    case UserRule(spec, accepted) =>
      KindOf(spec.rule) == Unmanaged && accepted
      && (InferFamily(spec, sys.familyOf).Some? ==> InferFamily(spec, sys.familyOf).value in sys.available)
    case UserDelete(_, _) => false
  }

  lemma ContainsItself(s: string)
    ensures Contains(s, s)
  {
    PrefixIsContained(s, s);
  }

  /** What lifting a ban leaves of one family's chain. */
  lemma LiftedChain(st: State, sys: System, k: Key, refused: RefusedFor, removed: bool, f: Family)
    requires Unrefused(refused("INPUT")) && (f !in sys.available ==> st.input.Get(f) == [])
    ensures forall r :: r in Lifted(st, sys, k, refused, removed).input.Get(f)
                        <==> r in st.input.Get(f) && !Contains(r.comment, Comment(k))
  {
    DeletedIsWithout(st.input, Comment(k), sys.available, refused("INPUT"), f);
    WithoutAll(st.input.Get(f), Finds(Comment(k)));
    forall r ensures Finds(Comment(k))(r) <==> Contains(r.comment, Comment(k)) {
    }
  }

  /** Lifting a ban clears both chains of its comment and keeps every other rule, in order; of the
      rows only its own can go. */
  lemma LiftingClears(st: State, sys: System, k: Key, refused: RefusedFor, removed: bool, f: Family)
    requires Unrefused(refused("INPUT")) && Unrefused(refused("FORWARD"))
    requires f !in sys.available ==> st.input.Get(f) == [] && st.forward.Get(f) == []
    ensures var st' := Lifted(st, sys, k, refused, removed);
            && st'.input.Get(f) == Without(st.input.Get(f), Finds(Comment(k)))
            && st'.forward.Get(f) == Without(st.forward.Get(f), Finds(Comment(k)))
            && (forall r :: r in st'.input.Get(f) <==> r in st.input.Get(f) && !Contains(r.comment, Comment(k)))
            && (forall r :: r in st'.forward.Get(f) <==> r in st.forward.Get(f) && !Contains(r.comment, Comment(k)))
            && (k in st'.bans <==> k in st.bans && !removed)
            && (forall o :: o in st.bans && o != k ==> o in st'.bans && st'.bans[o] == st.bans[o])
            && (forall o :: o in st'.bans ==> o in st.bans)
  {
    DeletedIsWithout(st.input, Comment(k), sys.available, refused("INPUT"), f);
    DeletedIsWithout(st.forward, Comment(k), sys.available, refused("FORWARD"), f);
    WithoutAll(st.input.Get(f), Finds(Comment(k)));
    WithoutAll(st.forward.Get(f), Finds(Comment(k)));
    forall r ensures Finds(Comment(k))(r) <==> Contains(r.comment, Comment(k)) {
    }
  }

  /** After lifting a ban another row is still backed exactly if its comment does not contain the
      lifted one's: a condition on the table that can be checked beforehand. */
  lemma LiftingKeepsBackedIff(st: State, sys: System, k: Key, refused: RefusedFor, removed: bool, other: Key)
    requires TableOk(st, sys) && Unrefused(refused("INPUT")) && other in st.bans
    ensures Backed(Lifted(st, sys, k, refused, removed), sys, other) <==> !Contains(Comment(other), Comment(k))
  {
    assert Backed(st, sys, other);
    LiftedChain(st, sys, k, refused, removed, sys.familyOf(other.ip).value);
  }

  /** So lifting the ban of 10.0.0.1 lifts, in effect, that of 10.0.0.10 and of every address of
      the server that continues it: the longer one's row stays without a rule. */
  lemma UnbanHitsLongerAddress(st: State, sys: System, k: Key, suffix: string, refused: RefusedFor, deleted: bool)
    requires TableOk(st, sys) && Unrefused(refused("INPUT"))
    requires TrimSpace(k.ip) != "" && suffix != "" && Key(k.serverID, k.ip + suffix) in st.bans
    ensures var st' := Unbanned(st, sys, k, refused, deleted);
            Key(k.serverID, k.ip + suffix) in st'.bans && !Backed(st', sys, Key(k.serverID, k.ip + suffix))
  {
    var long := Key(k.serverID, k.ip + suffix);
    assert |long.ip| > |k.ip|;
    assert Comment(long) == Comment(k) + suffix;
    PrefixIsContained(Comment(long), Comment(k));
    LiftingKeepsBackedIff(st, sys, k, refused, deleted, long);
  }

  lemma LiftingKeepsTable(st: State, sys: System, keys: iset<Key>, k: Key, refused: RefusedFor)
    requires TableOk(st, sys) && Separate(keys) && k in keys && Unrefused(refused("INPUT"))
    requires forall o :: o in st.bans ==> o in keys
    ensures TableOk(Lifted(st, sys, k, refused, true), sys)
  {
    var st' := Lifted(st, sys, k, refused, true);
    forall o | o in st'.bans ensures Backed(st', sys, o) {
      LiftingKeepsBackedIff(st, sys, k, refused, true, o);
    }
    forall f, r | r in st'.input.Get(f) && KindOf(r) == Kind.Ban ensures Owned(st', r) {
      LiftedChain(st, sys, k, refused, true, f);
      assert Owned(st, r);
      var o :| o in st.bans && Blocks(r, o);
      ContainsItself(Comment(k));
      assert o in st'.bans;
    }
    forall f | f !in sys.available ensures st'.input.Get(f) == [] {
      DeletedIsWithout(st.input, Comment(k), sys.available, refused("INPUT"), f);
    }
  }

  lemma {:induction false} CleanupKeepsTable(st: State, sys: System, keys: iset<Key>, order: seq<Key>,
                                             refused: RefusedFor, removed: Key -> bool)
    requires TableOk(st, sys) && Separate(keys) && Unrefused(refused("INPUT"))
    requires (forall o :: o in st.bans ==> o in keys) && forall o :: o in order ==> o in keys && removed(o)
    ensures TableOk(CleanedUp(st, sys, order, refused, removed), sys)
    ensures forall o :: o in CleanedUp(st, sys, order, refused, removed).bans <==> o in st.bans && o !in order
  {
    if order != [] {
      var init, k := order[..|order| - 1], order[|order| - 1];
      assert order == init + [k];
      CleanupKeepsTable(st, sys, keys, init, refused, removed);
      LiftingKeepsTable(CleanedUp(st, sys, init, refused, removed), sys, keys, k, refused);
    }
  }

  lemma BanKeepsTable(st: State, sys: System, k: Key, hits: int, banTime: nat, now: int, dest: string)
    requires TableOk(st, sys) && (sys.familyOf(k.ip).Some? ==> sys.familyOf(k.ip).value in sys.available)
    ensures TableOk(Banned(st, sys, k, hits, banTime, now, dest, SUCCESS).0, sys)
  {
    var st' := Banned(st, sys, k, hits, banTime, now, dest, SUCCESS).0;
    forall o | o in st'.bans ensures Backed(st', sys, o) {
      BanBacks(st, sys, k, hits, banTime, now, dest, o);
    }
    forall f, r | r in st'.input.Get(f) && KindOf(r) == Kind.Ban ensures Owned(st', r) {
      BanInput(st, sys, k, hits, banTime, now, dest, f, r);
      if r in st.input.Get(f) {
        assert Owned(st, r);
        var o :| o in st.bans && Blocks(r, o);
        assert o in st'.bans;
      }
    }
    forall f | f !in sys.available ensures st'.input.Get(f) == [] {
      BanInput(st, sys, k, hits, banTime, now, dest, f, BanRule(k, dest));
    }
  }

  /** What a ban does to one family's chain: nothing, or its rule comes in and its row is there. */
  lemma BanInput(st: State, sys: System, k: Key, hits: int, banTime: nat, now: int, dest: string, f: Family, r: Rule)
    ensures var st' := Banned(st, sys, k, hits, banTime, now, dest, SUCCESS).0;
            && (r in st.input.Get(f) ==> r in st'.input.Get(f))
            && (r in st'.input.Get(f) ==> r in st.input.Get(f) || (r == BanRule(k, dest) && k in st'.bans))
            && (Some(f) != sys.familyOf(k.ip) ==> st'.input.Get(f) == st.input.Get(f))
            && (k in st'.bans && k !in st.bans && Some(f) == sys.familyOf(k.ip) ==>
               BanRule(k, dest) in st'.input.Get(f))
            && (forall o :: o in st'.bans <==> o in st.bans || (o == k && k in st'.bans))
  {
    var g := sys.familyOf(k.ip);
    if g.Some? {
      AddedMembers(st.input, RuleSpec(g, Some(1), BanRule(k, dest)), sys.familyOf, f, r);
    }
  }

  lemma BanBacks(st: State, sys: System, k: Key, hits: int, banTime: nat, now: int, dest: string, o: Key)
    requires o in st.bans ==> Backed(st, sys, o)
    requires o in Banned(st, sys, k, hits, banTime, now, dest, SUCCESS).0.bans
    ensures Backed(Banned(st, sys, k, hits, banTime, now, dest, SUCCESS).0, sys, o)
  {
    if o in st.bans {
      var f := sys.familyOf(o.ip).value;
      var r :| r in st.input.Get(f) && Blocks(r, o);
      BanInput(st, sys, k, hits, banTime, now, dest, f, r);
    } else {
      BanInput(st, sys, k, hits, banTime, now, dest, sys.familyOf(k.ip).value, BanRule(k, dest));
    }
  }

  lemma UserRuleKeepsTable(st: State, sys: System, spec: RuleSpec)
    requires TableOk(st, sys) && KindOf(spec.rule) == Unmanaged
    requires InferFamily(spec, sys.familyOf).Some? ==> InferFamily(spec, sys.familyOf).value in sys.available
    ensures TableOk(st.(input := RuleAdded(st.input, spec, sys.familyOf, true).0), sys)
  {
    var st' := st.(input := RuleAdded(st.input, spec, sys.familyOf, true).0);
    forall f, r ensures StaysAt(st, st'.input, f, r) {
      AddedMembers(st.input, spec, sys.familyOf, f, r);
    }
    BansUntouched(st, st', sys);
  }

  lemma AddedMembers(c: Chains, spec: RuleSpec, familyOf: FamilyOf, f: Family, r: Rule)
    ensures var c' := RuleAdded(c, spec, familyOf, true).0;
            && (r in c'.Get(f) ==> r in c.Get(f) || r == spec.rule)
            && (r in c.Get(f) ==> r in c'.Get(f))
  {
    var g := InferFamily(spec, familyOf);
    if g == Some(f) && spec.position.Some? {
      var k := if spec.position.value == 0 then 0 else spec.position.value - 1;
      if k <= |c.Get(f)| {
        assert c.Get(f) == c.Get(f)[..k] + c.Get(f)[k..];
      }
    }
  }

  /** If it is a ban rule the rule does not come in and, if a row owns it, does not go. */
  ghost predicate StaysAt(st: State, after: Chains, f: Family, r: Rule) {
    && (r in after.Get(f) && KindOf(r) == Kind.Ban ==> r in st.input.Get(f))
    && (r in st.input.Get(f) && KindOf(r) == Kind.Ban && Owned(st, r) ==> r in after.Get(f))
  }

  /** Ban rules stay as they are, and missing binaries have no rules. */
  ghost predicate BansStay(st: State, after: Chains, sys: System) {
    && (forall f, r :: StaysAt(st, after, f, r))
    && (forall f :: f !in sys.available ==> after.Get(f) == [])
  }

  /** A step that keeps the ban rules and the rows keeps the table. */
  lemma BansUntouched(st: State, st': State, sys: System)
    requires TableOk(st, sys) && st'.bans == st.bans && BansStay(st, st'.input, sys)
    ensures TableOk(st', sys)
  {
    forall o | o in st'.bans ensures Backed(st', sys, o) {
      assert Backed(st, sys, o);
      var r :| r in st.input.Get(sys.familyOf(o.ip).value) && Blocks(r, o);
      BanRuleKind(o, r.dest);
      assert KindOf(r) == Kind.Ban && Owned(st, r);
      assert StaysAt(st, st'.input, sys.familyOf(o.ip).value, r);
    }
    forall f, r | r in st'.input.Get(f) && KindOf(r) == Kind.Ban ensures Owned(st', r) {
      assert StaysAt(st, st'.input, f, r);
      assert Owned(st, r);
    }
  }

  /** A rule of the chain is still there, and it was there or may have come in. */
  ghost predicate Gains(chain: seq<Rule>, after: seq<Rule>, r: Rule, added: bool) {
    (r in chain ==> r in after) && (r in after ==> r in chain || added)
  }

  lemma BuildOneMembers(c: Chains, p: Plan, c': Chains, serverID: string, budget: nat, f: Family, r: Rule, added: bool)
    requires PlanOk(p, serverID) && c' == BuildOne(c, p, budget)
    requires added <==> KindOf(r) == Whitelist || KindOf(r) == Limit
    ensures Gains(c.Get(f), c'.Get(f), r, added) && (p.family != f ==> c'.Get(f) == c.Get(f))
  {
    BuildMembers(c.Get(p.family), Finds(BAN), p.accepts, p.limits, budget, r);
    SetGet(c, p.family, Build(c.Get(p.family), Finds(BAN), p.accepts, p.limits, budget), f);
  }

  /** The rules of the plans come in, ban rules stay as they are. */
  lemma {:induction false} BuildAllMembers(c: Chains, plans: seq<Plan>, serverID: string, budget: nat, f: Family,
                                           r: Rule, added: bool)
    requires forall i :: 0 <= i < |plans| ==> PlanOk(plans[i], serverID)
    requires added <==> KindOf(r) == Whitelist || KindOf(r) == Limit
    ensures Gains(c.Get(f), BuildAll(c, plans, budget).Get(f), r, added)
    ensures (forall i :: 0 <= i < |plans| ==> plans[i].family != f) ==> BuildAll(c, plans, budget).Get(f) == c.Get(f)
    decreases |plans|
  {
    if plans != [] {
      var p := plans[0];
      var c' := BuildOne(c, p, budget);
      assert PlanOk(plans[0], serverID);
      BuildOneMembers(c, p, c', serverID, budget, f, r, added);
      if budget >= Size(p) {
        BuildAllStep(c, c', plans, budget);
        BuildAllMembers(c', plans[1..], serverID, budget - Size(p), f, r, added);
      }
    }
  }

  lemma BanIsNoDDoSRule(k: Key, serverID: string)
    requires Neutral(k.serverID) && Neutral(k.ip)
    ensures !Contains(Comment(k), Prefix(serverID))
  {
    if Contains(Comment(k), Prefix(serverID)) {
      assert Prefix(serverID)[14] == 'S';
      ContainsChar(Comment(k), Prefix(serverID), 'S');
    }
  }

  lemma AppliedMembers(c: Chains, serverID: string, p: Policy, host: Host, entries: seq<string>, familyOf: FamilyOf,
                       refused: Refused, budget: nat, f: Family, r: Rule)
    requires Unrefused(refused) && Neutral(serverID) && forall e :: e in entries ==> Neutral(e)
    requires f !in host.available ==> c.Get(f) == []
    ensures var c' := Applied(c, serverID, p, host, entries, familyOf, refused, budget).0;
            && (r in c.Get(f) && !Contains(r.comment, Prefix(serverID)) ==> r in c'.Get(f))
            && (r in c'.Get(f) ==> r in c.Get(f) || KindOf(r) == Whitelist || KindOf(r) == Limit)
            && (f !in host.available ==> c'.Get(f) == [])
  {
    var base := Deleted(c, Prefix(serverID), host.available, refused);
    DeletedIsWithout(c, Prefix(serverID), host.available, refused, f);
    WithoutAll(c.Get(f), Finds(Prefix(serverID)));
    assert Finds(Prefix(serverID))(r) <==> Contains(r.comment, Prefix(serverID));
    match FamiliesForServer(host, entries, familyOf)
    case None =>
    case Some(families) =>
      FamiliesAreComplete(host, entries, familyOf);
      PlansOk(serverID, p, host, entries, familyOf, families);
      BuildAllMembers(base, PlansFor(serverID, p, host, entries, familyOf, families), serverID, budget, f, r,
                      KindOf(r) == Whitelist || KindOf(r) == Limit);
  }

  /** What an application does to a rule, where bans and rows are neutral. */
  lemma AppliedBans(st: State, after: Chains, sys: System, e: Event, keys: iset<Key>, f: Family, r: Rule)
    requires e.Apply? && Works(e, sys, keys) && (f !in sys.available ==> st.input.Get(f) == [])
    requires after == Step(st, sys, e).input
    requires forall k :: k in st.bans ==> Neutral(k.serverID) && Neutral(k.ip)
    ensures StaysAt(st, after, f, r) && (f !in sys.available ==> after.Get(f) == [])
  {
    AppliedMembers(st.input, e.serverID, e.policy, e.host, e.entries, sys.familyOf, e.refused, e.budget, f, r);
    if Owned(st, r) {
      var k :| k in st.bans && Blocks(r, k);
      BanIsNoDDoSRule(k, e.serverID);
    }
  }

  lemma AppliedBansStay(st: State, after: Chains, sys: System, e: Event, keys: iset<Key>)
    requires TableOk(st, sys) && e.Apply? && Works(e, sys, keys) && after == Step(st, sys, e).input
    requires forall k :: k in st.bans ==> Neutral(k.serverID) && Neutral(k.ip)
    ensures BansStay(st, after, sys)
  {
    forall f, r ensures StaysAt(st, after, f, r) {
      AppliedBans(st, after, sys, e, keys, f, r);
    }
    forall f | f !in sys.available ensures after.Get(f) == [] {
      AppliedBans(st, after, sys, e, keys, f, BanRule(Key("", ""), ""));
    }
  }

  lemma ApplyKeepsTable(st: State, sys: System, e: Event, keys: iset<Key>)
    requires TableOk(st, sys) && e.Apply? && Works(e, sys, keys)
    requires forall k :: k in st.bans ==> Neutral(k.serverID) && Neutral(k.ip)
    ensures TableOk(Step(st, sys, e), sys)
  {
    AppliedBansStay(st, Step(st, sys, e).input, sys, e, keys);
    BansUntouched(st, Step(st, sys, e), sys);
  }

  ghost predicate NeutralKeys(keys: iset<Key>) {
    forall k :: k in keys ==> Neutral(k.serverID) && Neutral(k.ip)
  }

  lemma StepKeepsTable(st: State, sys: System, keys: iset<Key>, e: Event)
    requires TableOk(st, sys) && Separate(keys) && NeutralKeys(keys) && Works(e, sys, keys)
    requires forall k :: k in st.bans ==> k in keys
    ensures TableOk(Step(st, sys, e), sys) && forall k :: k in Step(st, sys, e).bans ==> k in keys
  {
    match e
    case Apply(_, _, _, _, _, _) => ApplyKeepsTable(st, sys, e, keys);
    case Ban(k, hits, banTime, now, dest, _) => BanKeepsTable(st, sys, k, hits, banTime, now, dest);
    case Unban(k, refusedFor, _) => LiftingKeepsTable(st, sys, keys, k, refusedFor);
    case Cleanup(now, order, refusedFor, removed) => CleanupKeepsTable(st, sys, keys, order, refusedFor, removed);
    case UserRule(spec, accepted) => UserRuleKeepsTable(st, sys, spec);
  }

  /** In every run in which commands succeed and no ban comment contains another's, every row keeps
      a DROP rule and every ban rule a row, DDoS applications and other rules notwithstanding. */
  lemma {:induction false} EveryRunKeepsTable(st: State, sys: System, keys: iset<Key>, events: seq<Event>)
    requires TableOk(st, sys) && Separate(keys) && NeutralKeys(keys)
    requires (forall k :: k in st.bans ==> k in keys) && forall e :: e in events ==> Works(e, sys, keys)
    ensures TableOk(After(st, sys, events), sys)
    decreases |events|
  {
    if events != [] {
      assert events[0] in events;
      StepKeepsTable(st, sys, keys, events[0]);
      EveryRunKeepsTable(Step(st, sys, events[0]), sys, keys, events[1..]);
    }
  }

  // ---------- What a ban blocks

  /** Bans of different servers or addresses carry different comments. */
  lemma CommentTellsTheBan(k: Key, o: Key)
    requires ':' !in k.serverID && ':' !in o.serverID && Comment(k) == Comment(o)
    ensures k == o
  {
    var a, b := k.serverID + ":" + k.ip, o.serverID + ":" + o.ip;
    assert Comment(k) == BAN + a && Comment(o) == BAN + b;
    assert (BAN + a)[|BAN|..] == a && (BAN + b)[|BAN|..] == b;
    assert k.serverID + ":" <= a;
    FirstColon(k.serverID, o.serverID, o.ip);
    assert a[|k.serverID| + 1..] == k.ip && b[|o.serverID| + 1..] == o.ip;
  }

  /** Where the address does not parse, the table cannot be read or the rule is refused, a ban
      fails and nothing changes; where only the row cannot be written, its rule is in already. */
  lemma FailedBan(st: State, sys: System, k: Key, hits: int, banTime: nat, now: int, dest: string, did: BanOutcome)
    requires !Banned(st, sys, k, hits, banTime, now, dest, did).1
    ensures var st' := Banned(st, sys, k, hits, banTime, now, dest, did).0;
            && st'.bans == st.bans && st'.forward == st.forward
            && (st' != st ==> did.readable && did.accepted && !did.written && sys.familyOf(k.ip).Some?)
    ensures !(k in st.bans && st.bans[k].expiresAt > now) || sys.familyOf(k.ip) == None || !did.readable
  {
  }

  lemma BanNeedsTheTable(st: State, sys: System, k: Key, hits: int, banTime: nat, now: int, dest: string,
                         did: BanOutcome)
    ensures !did.readable || sys.familyOf(k.ip) == None ==>
              Banned(st, sys, k, hits, banTime, now, dest, did) == (st, false)
  {
  }

  /** A new ban's rule is the first of the chain of its address's family. It meets the packets from
      the address to the server and no others, and so every one of them meets it first. */
  lemma NewBanBlocks(st: State, sys: System, k: Key, hits: int, banTime: nat, now: int, dest: string, did: BanOutcome,
                     covers: (string, string) -> bool, over: Rule -> bool, packet: Packet)
    requires sys.familyOf("") == None && !(k in st.bans && st.bans[k].expiresAt > now)
    requires Banned(st, sys, k, hits, banTime, now, dest, did).1
    ensures sys.familyOf(k.ip).Some?
    ensures var st' := Banned(st, sys, k, hits, banTime, now, dest, did).0;
            var f := sys.familyOf(k.ip).value;
            var chain := st'.input.Get(f);
            && chain != [] && chain[1..] == st.input.Get(f) && Blocks(chain[0], k) && chain[0].dest == dest
            && (forall g :: g != f ==> st'.input.Get(g) == st.input.Get(g)) && st'.forward == st.forward
            && st'.bans == st.bans[k := BanRow(hits, now, now + banTime)]
            && (Hits(covers, over, packet)(chain[0])
                <==> covers(k.ip, packet.source) && (dest == "" || covers(dest, packet.dest)))
            && (covers(k.ip, packet.source) && (dest == "" || covers(dest, packet.dest)) ==>
                  FirstManaged(chain, KindOf, Hits(covers, over, packet)) == Some(chain[0]))
  {
    var f := sys.familyOf(k.ip).value;
    var spec := RuleSpec(Some(f), Some(1), BanRule(k, dest));
    assert RuleAdded(st.input, spec, sys.familyOf, did.accepted).1;
    TopInserted(st.input.Get(f), BanRule(k, dest));
    BanRuleKind(k, dest);
  }

  lemma TopInserted<T>(chain: seq<T>, r: T)
    ensures Inserted(chain, 1, r) == Some([r] + chain)
  {
    assert chain[..0] + [r] + chain[0..] == [r] + chain;
  }

  /** As long as everything works: for every row there is an address of the server such that
      packets from the banned address to it meet a DROP first, whatever else the chain holds. */
  lemma BannedPacketsAreDropped(st: State, sys: System, keys: iset<Key>, events: seq<Event>, k: Key,
                                covers: (string, string) -> bool, over: Rule -> bool) returns (dest: string)
    requires TableOk(st, sys) && Separate(keys) && NeutralKeys(keys) && ChainsOrdered(st.input)
    requires (forall o :: o in st.bans ==> o in keys) && forall e :: e in events ==> Works(e, sys, keys)
    requires k in After(st, sys, events).bans
    ensures sys.familyOf(k.ip).Some?
    ensures var chain := After(st, sys, events).input.Get(sys.familyOf(k.ip).value);
            forall packet: Packet ::
              covers(k.ip, packet.source) && (dest == "" || covers(dest, packet.dest)) ==>
                var first := FirstManaged(chain, KindOf, Hits(covers, over, packet));
                first.Some? && first.value.target == Drop && KindOf(first.value) == Kind.Ban
  {
    var end := After(st, sys, events);
    EveryRunKeepsTable(st, sys, keys, events);
    WorkingIsTame(sys, keys, events);
    EveryRunIsOrdered(st, sys, events);
    assert Backed(end, sys, k);
    var chain := end.input.Get(sys.familyOf(k.ip).value);
    var r :| r in chain && Blocks(r, k);
    dest := r.dest;
    forall packet: Packet
      | covers(k.ip, packet.source) && (dest == "" || covers(dest, packet.dest))
      ensures var first := FirstManaged(chain, KindOf, Hits(covers, over, packet));
              first.Some? && first.value.target == Drop && KindOf(first.value) == Kind.Ban
    {
      BanIsMetFirst(end, sys, k, r, covers, over, packet);
    }
  }

  lemma WorkingIsTame(sys: System, keys: iset<Key>, events: seq<Event>)
    requires forall e :: e in events ==> Works(e, sys, keys)
    ensures forall e :: e in events ==> Tame(e)
  {
  }

  lemma BanIsMetFirst(st: State, sys: System, k: Key, r: Rule,
                      covers: (string, string) -> bool, over: Rule -> bool, packet: Packet)
    requires TableOk(st, sys) && ChainsOrdered(st.input) && sys.familyOf(k.ip).Some?
    requires r in st.input.Get(sys.familyOf(k.ip).value) && Blocks(r, k)
    requires covers(k.ip, packet.source) && (r.dest == "" || covers(r.dest, packet.dest))
    ensures var first := FirstManaged(st.input.Get(sys.familyOf(k.ip).value), KindOf, Hits(covers, over, packet));
            first.Some? && first.value.target == Drop && KindOf(first.value) == Kind.Ban
  {
    var f := sys.familyOf(k.ip).value;
    var chain := st.input.Get(f);
    var i :| 0 <= i < |chain| && chain[i] == r;
    BlocksIsBan(r, k);
    FirstMatchRespectsOrder(chain, KindOf, Hits(covers, over, packet), i);
    var first := FirstManaged(chain, KindOf, Hits(covers, over, packet)).value;
    FirstManagedIsThere(chain, KindOf, Hits(covers, over, packet));
    assert Owned(st, first);
  }

  lemma BlocksIsBan(r: Rule, k: Key)
    requires Blocks(r, k)
    ensures KindOf(r) == Kind.Ban
  {
    PrefixIsContained(Comment(k), BAN);
  }

  lemma {:induction false} FirstManagedIsThere<T>(chain: seq<T>, kind: T -> Kind, hits: T -> bool)
    ensures var first := FirstManaged(chain, kind, hits); first.Some? ==> first.value in chain
  {
    if chain != [] && !(hits(chain[0]) && kind(chain[0]) != Unmanaged) {
      FirstManagedIsThere(chain[1..], kind, hits);
    }
  }

  // ---------- Banning again

  /** Banning a live address adds no rule and keeps the row; its ban starts anew from now. */
  lemma RebanAddsNoRule(st: State, sys: System, k: Key, hits: int, banTime: nat, now: int, dest: string,
                        did: BanOutcome)
    requires k in st.bans && st.bans[k].expiresAt > now
    ensures var st' := Banned(st, sys, k, hits, banTime, now, dest, did).0;
            && st'.input == st.input && st'.forward == st.forward && st'.bans.Keys == st.bans.Keys
            && (forall o :: o in st.bans && o != k ==> st'.bans[o] == st.bans[o])
            && st'.bans[k].bannedAt == st.bans[k].bannedAt && st'.bans[k].hits in {hits, st.bans[k].hits}
            && (st'.bans[k].expiresAt == now + banTime || st' == st)
            && (sys.familyOf(k.ip).Some? && did.readable && did.written ==>
                  st'.bans[k].expiresAt == now + banTime && st'.bans[k].hits == hits)
  {
  }

  /** The clock does not run back, and bans last `banTime`. */
  ghost predicate InTime(events: seq<Event>, clock: int, banTime: nat)
    decreases |events|
  {
    events == [] ||
    (match events[0]
     case Ban(_, _, t, now, _, _) => clock <= now && t == banTime && InTime(events[1..], now, banTime)
     case Cleanup(now, _, _, _) => clock <= now && InTime(events[1..], now, banTime)
     case _ => InTime(events[1..], clock, banTime))
  }

  /** Under a fixed ban time no row's expiry ever moves back, removal and re-ban included. */
  lemma {:induction false} ExpiryNeverMovesBack(st: State, sys: System, events: seq<Event>, clock: int, banTime: nat,
                                                k: Key)
    requires InTime(events, clock, banTime)
    requires forall o :: o in st.bans ==> st.bans[o].expiresAt <= clock + banTime
    ensures k in After(st, sys, events).bans ==>
              if k in st.bans then st.bans[k].expiresAt <= After(st, sys, events).bans[k].expiresAt
              else clock + banTime <= After(st, sys, events).bans[k].expiresAt
    decreases |events|
  {
    if events != [] {
      var e := events[0];
      var st' := Step(st, sys, e);
      if e.Cleanup? {
        CleanupRows(st, sys, e.order, e.refusedFor, e.removed);
      }
      var clock' := match e case Ban(_, _, _, now, _, _) => now case Cleanup(now, _, _, _) => now case _ => clock;
      ExpiryNeverMovesBack(st', sys, events[1..], clock', banTime, k);
    }
  }

  lemma {:induction false} CleanupRows(st: State, sys: System, order: seq<Key>, refused: RefusedFor,
                                       removed: Key -> bool)
    ensures var st' := CleanedUp(st, sys, order, refused, removed);
            forall k :: k in st'.bans ==> k in st.bans && st'.bans[k] == st.bans[k]
  {
    if order != [] {
      CleanupRows(st, sys, order[..|order| - 1], refused, removed);
    }
  }
}
