/** The firewall half of the server configuration service as methods over the chains and the ban
    table, each tied to the function that says what it does. */
module ServerConfiguration {
  import opened Text
  import opened Sorting
  import opened RuleChains
  import opened Firewall
  import opened DDoSRules
  import opened Fail2Ban

  /** `deleteRuleByCommentForFamily` */
  method DeleteByComment(chain: seq<Rule>, needle: string, refused: Refusals) returns (after: seq<Rule>)
    ensures after == Survivors(chain, Finds(needle), refused, 0)
  {
    after := DeleteFound(chain, Finds(needle), refused);
  }

  /** `findLastRulePositionByComment` */
  method FindLastRulePosition(chain: seq<Rule>, needle: string) returns (maxNum: nat)
    ensures maxNum == LastPosition(chain, Finds(needle))
  {
    maxNum := FindLast(chain, Finds(needle));
  }

  /** Entry of a whitelist: its canonical text, if it parses. */
  type Canon = string -> Option<string>

  /** Adds the canonical forms of the parts that parse, each once, in order. */
  function AddEntries(out: seq<string>, parts: seq<string>, canon: Canon): (r: seq<string>)
    ensures out <= r && (Distinct(out) ==> Distinct(r))
    decreases |parts|
  {
    if parts == [] then out
    else
      var key := canon(TrimSpace(parts[0]));
      AddEntries(if key.None? || key.value in out then out else out + [key.value], parts[1..], canon)
  }

  /** `normalizeWhitelistEntries`; a blank part does not parse. */
  method NormalizeWhitelistEntries(input: string, canon: Canon) returns (out: seq<string>)
    requires canon("") == None
    ensures out == AddEntries([], Split(input, ','), canon)
    ensures Distinct(out)
  {
    out := [];
    var parts := Split(input, ',');
    var seen := {};
    for i := 0 to |parts|
      invariant forall s :: s in seen <==> s in out
      invariant AddEntries([], parts, canon) == AddEntries(out, parts[i..], canon)
    {
      var p := TrimSpace(parts[i]);
      if p != "" {
        var key := canon(p);
        if key.Some? && key.value !in seen {
          seen := seen + {key.value};
          out := out + [key.value];
        }
      }
    }
  }

  /** The list holds the canonical forms of exactly the parts that parse. */
  lemma {:induction false} EntriesAre(out: seq<string>, parts: seq<string>, canon: Canon, e: string)
    ensures e in AddEntries(out, parts, canon)
            <==> e in out || exists p :: p in parts && canon(TrimSpace(p)) == Some(e)
    decreases |parts|
  {
    if parts != [] {
      var key := canon(TrimSpace(parts[0]));
      EntriesAre(if key.None? || key.value in out then out else out + [key.value], parts[1..], canon, e);
      assert parts == [parts[0]] + parts[1..];
    }
  }

  /** Canonical texts parse to themselves and hold neither commas nor outer white space. */
  ghost predicate CanonOk(canon: Canon) {
    && canon("") == None
    && forall s :: canon(s).Some? ==>
         canon(canon(s).value) == Some(canon(s).value) && ',' !in canon(s).value && Trimmed(canon(s).value)
  }

  ghost predicate Canonical(entry: string, canon: Canon) {
    canon(entry) == Some(entry) && ',' !in entry && Trimmed(entry)
  }

  lemma {:induction false} EntriesAreCanonical(out: seq<string>, parts: seq<string>, canon: Canon)
    requires CanonOk(canon) && forall e :: e in out ==> Canonical(e, canon)
    ensures forall e :: e in AddEntries(out, parts, canon) ==> Canonical(e, canon)
    decreases |parts|
  {
    if parts != [] {
      var key := canon(TrimSpace(parts[0]));
      EntriesAreCanonical(if key.None? || key.value in out then out else out + [key.value], parts[1..], canon);
    }
  }

  lemma {:induction false} CanonicalEntriesStay(out: seq<string>, entries: seq<string>, canon: Canon)
    requires Distinct(out + entries) && forall e :: e in entries ==> Canonical(e, canon)
    ensures AddEntries(out, entries, canon) == out + entries
    decreases |entries|
  {
    if entries == [] {
      assert out + entries == out;
    } else {
      var e := entries[0];
      assert e in entries;
      TrimSpaceTrimmed(e);
      assert e !in out by {
        assert (out + entries)[|out|] == e;
        forall i | 0 <= i < |out| ensures out[i] != e { assert (out + entries)[i] != (out + entries)[|out|]; }
      }
      assert out + [e] + entries[1..] == out + entries;
      CanonicalEntriesStay(out + [e], entries[1..], canon);
    }
  }

  /** Saving joins the normalised list with commas and applying normalises it again: to itself. */
  lemma NormalizedListIsStable(input: string, canon: Canon)
    requires CanonOk(canon)
    ensures var out := AddEntries([], Split(input, ','), canon);
            AddEntries([], Split(Join(out, [',']), ','), canon) == out
  {
    var out := AddEntries([], Split(input, ','), canon);
    EntriesAreCanonical([], Split(input, ','), canon);
    if out == [] {
      assert Split(Join(out, [',']), ',') == [[]];
      assert AddEntries([], [[]], canon) == AddEntries([], [[]][1..], canon);
    } else {
      forall e | e in out ensures ',' !in e {
        assert Canonical(e, canon);
      }
      SplitJoin(out, ',');
      assert [] + out == out;
      CanonicalEntriesStay([], out, canon);
    }
  }

  /** The chain with as many of the accepts in as the kernel takes. */
  function WithAccepts(chain: seq<Rule>, rules: seq<Rule>, budget: nat): seq<Rule> {
    Build(chain, Finds(BAN), rules, [], budget)
  }

  lemma WithAcceptsIs(chain: seq<Rule>, rules: seq<Rule>, budget: nat)
    ensures var n := if budget < |rules| then budget else |rules|;
            InsertedFrom(chain, LastPosition(chain, Finds(BAN)) + 1, rules, n)
              == Some(WithAccepts(chain, rules, budget))
  {
    var k := LastPosition(chain, Finds(BAN));
    var n := if budget < |rules| then budget else |rules|;
    InsertedFromIs(chain, k, rules, n);
    assert Take(rules, budget) == rules[..n];
    assert chain[..k] + rules[..n] + chain[k..] + [] == chain[..k] + rules[..n] + chain[k..];
  }

  /** The place behind the last ban, or the top, and the insertions from there on. */
  method InsertBehindBans(chain: seq<Rule>, rules: seq<Rule>, budget: nat) returns (after: seq<Rule>, ok: bool)
    ensures after == WithAccepts(chain, rules, budget) && ok == (budget >= |rules|)
  {
    WithAcceptsIs(chain, rules, budget);
    if |rules| == 0 {
      return chain, true;
    }
    var insertAt := FindLastRulePosition(chain, BAN);
    if insertAt <= 0 {
      insertAt := 1;
    } else {
      insertAt := insertAt + 1;
    }
    after, ok := InsertMany(chain, insertAt, rules, budget);
  }

  /** No address of the rule is of another family. */
  predicate Fits(r: Rule, f: Family, familyOf: FamilyOf) {
    familyOf(r.source) in {None, Some(f)} && familyOf(r.dest) in {None, Some(f)}
  }

  class Service {
    var input: Chains
    var forward: Chains
    var bans: map<Key, BanRow>
    const sys: System

    ghost function Abstract(): State
      reads this
    {
      State(input, forward, bans)
    }

    constructor (sys: System)
      ensures Abstract() == State(Chains([], []), Chains([], []), map[]) && this.sys == sys
    {
      input, forward, bans := Chains([], []), Chains([], []), map[];
      this.sys := sys;
    }

    method AddRule(spec: RuleSpec, accepted: bool) returns (ok: bool)
      modifies this
      ensures (input, ok) == RuleAdded(old(input), spec, sys.familyOf, accepted)
      ensures forward == old(forward) && bans == old(bans)
    {
      var family := InferFamily(spec, sys.familyOf);
      if family == None || !accepted {
        return false;
      }
      var chain := input.Get(family.value);
      if spec.position.Some? {
        var after := Inserted(chain, spec.position.value, spec.rule);
        if after == None {
          return false;
        }
        input := input.Set(family.value, after.value);
      } else {
        input := input.Set(family.value, chain + [spec.rule]);
      }
      return true;
    }

    method DeleteRuleByComment(needle: string, refused: Refused)
      modifies this
      ensures input == Deleted(old(input), needle, sys.available, refused)
      ensures forward == old(forward) && bans == old(bans)
    {
      var v4, v6 := input.v4, input.v6;
      if IPv4 in sys.available {
        v4 := DeleteByComment(input.v4, needle, RefusedIn(refused, IPv4));
      }
      if IPv6 in sys.available {
        v6 := DeleteByComment(input.v6, needle, RefusedIn(refused, IPv6));
      }
      input := Chains(v4, v6);
    }

    method DeleteForwardRuleByComment(needle: string, refused: Refused)
      modifies this
      ensures forward == Deleted(old(forward), needle, sys.available, refused)
      ensures input == old(input) && bans == old(bans)
    {
      var v4, v6 := forward.v4, forward.v6;
      if IPv4 in sys.available {
        v4 := DeleteByComment(forward.v4, needle, RefusedIn(refused, IPv4));
      }
      if IPv6 in sys.available {
        v6 := DeleteByComment(forward.v6, needle, RefusedIn(refused, IPv6));
      }
      forward := Chains(v4, v6);
    }

    /** `AddRule` for a rule whose family is given and fits. */
    method AddFitting(f: Family, position: Option<nat>, r: Rule, accepted: bool) returns (ok: bool)
      requires Fits(r, f, sys.familyOf)
      modifies this
      ensures var chain := old(input).Get(f);
              var after := if position.Some? then Inserted(chain, position.value, r) else Some(chain + [r]);
              && ok == (accepted && after.Some?)
              && input == (if ok then old(input).Set(f, after.value) else old(input))
      ensures forward == old(forward) && bans == old(bans)
    {
      ok := AddRule(RuleSpec(Some(f), position, r), accepted);
    }

    /** The accepts of one family, at rising positions behind its last ban, until the kernel
        refuses one. The rules fit the family, so each turn is what `AddRule` does. */
    method InsertAccepts(f: Family, rules: seq<Rule>, budget: nat) returns (ok: bool)
      requires forall r :: r in rules ==> Fits(r, f, sys.familyOf)
      modifies this
      ensures input == old(input).Set(f, WithAccepts(old(input).Get(f), rules, budget))
      ensures ok == (budget >= |rules|)
      ensures forward == old(forward) && bans == old(bans)
    {
      var after;
      after, ok := InsertBehindBans(input.Get(f), rules, budget);
      input := input.Set(f, after);
    }

    /** The limits of one family, at the end. */
    method AppendLimits(f: Family, rules: seq<Rule>, budget: nat) returns (ok: bool)
      requires forall r :: r in rules ==> Fits(r, f, sys.familyOf)
      modifies this
      ensures input == old(input).Set(f, old(input).Get(f) + Take(rules, budget))
      ensures ok == (budget >= |rules|)
      ensures forward == old(forward) && bans == old(bans)
    {
      ghost var chain := input.Get(f);
      assert chain + rules[..0] == chain;
      for i := 0 to |rules|
        invariant i <= budget
        invariant input == old(input).Set(f, chain + rules[..i])
        invariant forward == old(forward) && bans == old(bans)
      {
        assert rules[i] in rules;
        ok := AddFitting(f, None, rules[i], i < budget);
        if !ok {
          return;
        }
        assert chain + rules[..i + 1] == chain + rules[..i] + [rules[i]];
      }
      assert rules[..|rules|] == rules;
      return true;
    }

    /** `ApplyDDoSIptables` for the normalised whitelist: the server's rules are deleted and, if the
        policy is on for the system server, written anew family by family. */
    method ApplyDDoSIptables(serverID: string, p: Policy, host: Host, entries: seq<string>, refused: Refused,
                             budget: nat)
      returns (ok: bool)
      requires host.available == sys.available && sys.familyOf("") == None
      requires forall f :: sys.familyOf(host.dest(f)) in {None, Some(f)}
      modifies this
      ensures (input, ok) == Applied(old(input), serverID, p, host, entries, sys.familyOf, refused, budget)
      ensures forward == old(forward) && bans == old(bans)
    {
      if serverID == "" {
        return true;
      }
      DeleteRuleByComment(Prefix(serverID), refused);
      ghost var base := input;
      if !p.enabled || TrimSpace(serverID) != "0" {
        return true;
      }
      var families := FamiliesForServer(host, entries, sys.familyOf);
      if families == None {
        return false;
      }
      ghost var plans := PlansFor(serverID, p, host, entries, sys.familyOf, families.value);
      var left: nat := budget;
      for i := 0 to |families.value|
        invariant BuildAll(base, plans, budget) == BuildAll(input, plans[i..], left)
        invariant budget >= Additions(plans) <==> left >= Additions(plans[i..])
        invariant forward == old(forward) && bans == old(bans)
      {
        var plan := PlanFor(serverID, p, host, entries, sys.familyOf, families.value[i]);
        assert plans[i..][0] == plan && plans[i..][1..] == plans[i + 1..];
        PlanFits(serverID, p, host, entries, sys.familyOf, families.value[i]);
        ghost var before := input;
        ok := InsertAccepts(plan.family, plan.accepts, left);
        BuildInTwoParts(before.Get(plan.family), plan.accepts, plan.limits, left);
        if !ok {
          return;
        }
        ok := AppendLimits(plan.family, plan.limits, left - |plan.accepts|);
        assert input == BuildOne(before, plan, left);
        if !ok {
          return;
        }
        left := left - Size(plan);
      }
      return true;
    }

    /** `banFail2BanIP` */
    method BanFail2BanIP(k: Key, hits: int, banTime: nat, now: int, dest: string, did: BanOutcome) returns (ok: bool)
      modifies this
      ensures (Abstract(), ok) == Banned(old(Abstract()), sys, k, hits, banTime, now, dest, did)
    {
      var family := sys.familyOf(k.ip);
      if family == None || !did.readable {
        return false;
      }
      if k in bans && bans[k].expiresAt > now {
        if did.written {
          bans := bans[k := bans[k].(hits := hits, expiresAt := now + banTime)];
        }
        return true;
      }
      ok := AddRule(RuleSpec(family, Some(1), BanRule(k, dest)), did.accepted);
      if !ok || !did.written {
        return false;
      }
      bans := bans[k := BanRow(hits, now, now + banTime)];
    }

    /** The deletions an unban and an expiry share; `removed` tells whether the row goes. */
    method Lift(k: Key, refused: RefusedFor, removed: bool)
      modifies this
      ensures Abstract() == Lifted(old(Abstract()), sys, k, refused, removed)
    {
      DeleteRuleByComment(Comment(k), refused("INPUT"));
      DeleteForwardRuleByComment(Comment(k), refused("FORWARD"));
      if removed {
        bans := bans - {k};
      }
    }

    /** `UnbanFail2BanIP`: an error of the last statement is all it reports. */
    method UnbanFail2BanIP(k: Key, refused: RefusedFor, deleted: bool) returns (ok: bool)
      modifies this
      ensures Abstract() == Unbanned(old(Abstract()), sys, k, refused, deleted)
      ensures ok <==> deleted || TrimSpace(k.ip) == ""
    {
      if TrimSpace(k.ip) == "" {
        return true;
      }
      Lift(k, refused, deleted);
      return deleted;
    }

    /** `cleanupExpiredFail2BanBans`: the expired rows that can be read, in whatever order they are
        listed; none can be when the query fails. */
    method CleanupExpiredFail2BanBans(now: int, refused: RefusedFor, scans: Key -> bool, removed: Key -> bool)
      returns (order: seq<Key>)
      modifies this
      ensures Distinct(order) && forall k :: k in order <==> k in old(bans) && old(bans)[k].expiresAt <= now && scans(k)
      ensures Abstract() == CleanedUp(old(Abstract()), sys, order, refused, removed)
    {
      order := Visit(set k | k in bans && bans[k].expiresAt <= now && scans(k));
      assert order[..0] == [];
      for i := 0 to |order|
        invariant Abstract() == CleanedUp(old(Abstract()), sys, order[..i], refused, removed)
      {
        Lift(order[i], refused, removed(order[i]));
        assert order[..i + 1][..i] == order[..i];
      }
      assert order[..|order|] == order;
    }

    /** `applyFail2BanPolicy`, for the offenders the access log yields. */
    method ApplyFail2BanPolicy(p: BanPolicy)
      modifies this
      ensures Abstract() == After(old(Abstract()), sys, PolicyBans(p, p.offenders))
    {
      for i := 0 to |p.offenders|
        invariant After(Abstract(), sys, PolicyBans(p, p.offenders[i..]))
                  == After(old(Abstract()), sys, PolicyBans(p, p.offenders))
      {
        var o := p.offenders[i];
        ghost var rest := PolicyBans(p, p.offenders[i + 1..]);
        assert p.offenders[i..][0] == o && p.offenders[i..][1..] == p.offenders[i + 1..];
        assert [] + rest == rest;
        if o.ip != "" && !p.ignored(o.ip) {
          ghost var e := Event.Ban(Key(p.serverID, o.ip), o.hits, p.EffectiveBanTime(), o.now, o.dest, o.did);
          assert PolicyBans(p, p.offenders[i..]) == [e] + rest && ([e] + rest)[1..] == rest;
          var ok := BanFail2BanIP(Key(p.serverID, o.ip), o.hits, p.EffectiveBanTime(), o.now, o.dest, o.did);
        }
      }
    }

    /** `EnforceFail2BanOnce` is a run: an expiry followed by bans. */
    method EnforceFail2BanOnce(now: int, policies: seq<BanPolicy>, refused: RefusedFor, scans: Key -> bool,
                               removed: Key -> bool)
      returns (order: seq<Key>)
      modifies this
      ensures Distinct(order) && forall k :: k in order <==> k in old(bans) && old(bans)[k].expiresAt <= now && scans(k)
      ensures Abstract()
              == After(old(Abstract()), sys, [Event.Cleanup(now, order, refused, removed)] + AllBans(policies))
    {
      order := CleanupExpiredFail2BanBans(now, refused, scans, removed);
      ghost var cleaned := Abstract();
      assert ([Event.Cleanup(now, order, refused, removed)] + AllBans(policies))[1..] == AllBans(policies);
      for i := 0 to |policies|
        invariant After(Abstract(), sys, AllBans(policies[i..])) == After(cleaned, sys, AllBans(policies))
      {
        var p := policies[i];
        assert policies[i..][0] == p && policies[i..][1..] == policies[i + 1..];
        assert [] + AllBans(policies[i + 1..]) == AllBans(policies[i + 1..]);
        AfterConcat(Abstract(), sys, PolicyBans(p, p.offenders), AllBans(policies[i + 1..]));
        if p.enabled {
          ApplyFail2BanPolicy(p);
        }
      }
    }
  }

  /** What the access log says of an address, and the outcome of banning it. */
  datatype Offender = Offender(ip: string, hits: int, now: int, dest: string, did: BanOutcome)

  datatype BanPolicy = BanPolicy(serverID: string, enabled: bool, banTime: int, ignored: string -> bool,
                                 offenders: seq<Offender>) {
    function EffectiveBanTime(): nat {
      if banTime <= 0 then DEFAULT_BAN_TIME else banTime
    }
  }

  const DEFAULT_BAN_TIME: nat := 3600

  function PolicyBans(p: BanPolicy, offenders: seq<Offender>): seq<Event> {
    if offenders == [] then []
    else
      var o := offenders[0];
      (if o.ip != "" && !p.ignored(o.ip)
       then [Event.Ban(Key(p.serverID, o.ip), o.hits, p.EffectiveBanTime(), o.now, o.dest, o.did)] else [])
      + PolicyBans(p, offenders[1..])
  }

  function AllBans(policies: seq<BanPolicy>): seq<Event> {
    if policies == [] then []
    else (if policies[0].enabled then PolicyBans(policies[0], policies[0].offenders) else []) + AllBans(policies[1..])
  }

  /** The bans of a policy: one for each offender with an address that is not ignored, under the
      policy's server, for its ban time or an hour. */
  lemma {:induction false} PolicyBansAre(p: BanPolicy, offenders: seq<Offender>, e: Event)
    ensures e in PolicyBans(p, offenders)
            <==> exists o :: o in offenders && o.ip != "" && !p.ignored(o.ip)
                             && e == Event.Ban(Key(p.serverID, o.ip), o.hits, if p.banTime > 0 then p.banTime else 3600,
                                               o.now, o.dest, o.did)
  {
    if offenders != [] {
      PolicyBansAre(p, offenders[1..], e);
      assert offenders == [offenders[0]] + offenders[1..];
    }
  }

  lemma {:induction false} AllBansAre(policies: seq<BanPolicy>, e: Event)
    ensures e in AllBans(policies) <==> exists p :: p in policies && p.enabled && e in PolicyBans(p, p.offenders)
  {
    if policies != [] {
      AllBansAre(policies[1..], e);
      assert policies == [policies[0]] + policies[1..];
    }
  }

  lemma {:induction false} BansAddTheirKeys(st: State, sys: System, events: seq<Event>, k: Key)
    requires forall e :: e in events ==> e.Ban?
    requires k in After(st, sys, events).bans && k !in st.bans
    ensures exists e :: e in events && e.key == k
    decreases |events|
  {
    if events != [] {
      assert events[0] in events;
      var st' := Step(st, sys, events[0]);
      if k !in st'.bans {
        BansAddTheirKeys(st', sys, events[1..], k);
      }
    }
  }

  /** An enforcement bans nobody but the offenders of enabled policies that are not ignored. */
  lemma EnforcementBans(st: State, sys: System, policies: seq<BanPolicy>, k: Key)
    requires k in After(st, sys, AllBans(policies)).bans && k !in st.bans
    ensures exists p, o :: p in policies && p.enabled && o in p.offenders
                           && o.ip != "" && !p.ignored(o.ip) && k == Key(p.serverID, o.ip)
  {
    forall e | e in AllBans(policies) ensures e.Ban? {
      AllBansAre(policies, e);
      var p :| p in policies && p.enabled && e in PolicyBans(p, p.offenders);
      PolicyBansAre(p, p.offenders, e);
    }
    BansAddTheirKeys(st, sys, AllBans(policies), k);
    var e :| e in AllBans(policies) && e.key == k;
    AllBansAre(policies, e);
    var p :| p in policies && p.enabled && e in PolicyBans(p, p.offenders);
    PolicyBansAre(p, p.offenders, e);
  }

  lemma {:induction false} AfterConcat(st: State, sys: System, a: seq<Event>, b: seq<Event>)
    ensures After(st, sys, a + b) == After(After(st, sys, a), sys, b)
    decreases |a|
  {
    if a == [] {
      assert a + b == b;
    } else {
      assert (a + b)[0] == a[0] && (a + b)[1..] == a[1..] + b;
      AfterConcat(Step(st, sys, a[0]), sys, a[1..], b);
    }
  }

  lemma BuildInTwoParts(chain: seq<Rule>, accepts: seq<Rule>, limits: seq<Rule>, budget: nat)
    ensures Build(chain, Finds(BAN), accepts, limits, budget)
            == WithAccepts(chain, accepts, budget)
               + Take(limits, if budget < |accepts| then 0 else budget - |accepts|)
  {
    var k := LastPosition(chain, Finds(BAN));
    var body := chain[..k] + Take(accepts, budget) + chain[k..];
    assert body + Take([], 0) == body;
  }

  lemma {:induction false} AcceptsFit(serverID: string, dest: string, ports: seq<nat>, entries: seq<string>,
                                      f: Family, familyOf: FamilyOf)
    requires familyOf(dest) in {None, Some(f)} && forall e :: e in entries ==> familyOf(e) == Some(f)
    ensures forall r :: r in AcceptRules(serverID, dest, ports, entries) ==> Fits(r, f, familyOf)
  {
    if ports != [] {
      AcceptsFit(serverID, dest, ports[1..], entries, f, familyOf);
      forall r | r in AcceptsAt(serverID, dest, ports[0], entries) ensures Fits(r, f, familyOf) {
        var i :| 0 <= i < |entries| && AcceptsAt(serverID, dest, ports[0], entries)[i] == r;
        assert entries[i] in entries;
      }
    }
  }

  lemma {:induction false} LimitsFit(serverID: string, dest: string, ports: seq<nat>, p: Policy, f: Family,
                                     familyOf: FamilyOf)
    requires familyOf(dest) in {None, Some(f)} && familyOf("") == None
    ensures forall r :: r in LimitRules(serverID, dest, ports, p) ==> Fits(r, f, familyOf)
  {
    if ports != [] {
      LimitsFit(serverID, dest, ports[1..], p, f, familyOf);
    }
  }

  lemma PlanFits(serverID: string, p: Policy, host: Host, entries: seq<string>, familyOf: FamilyOf, f: Family)
    requires familyOf(host.dest(f)) in {None, Some(f)} && familyOf("") == None
    ensures var plan := PlanFor(serverID, p, host, entries, familyOf, f);
            forall r :: r in plan.accepts || r in plan.limits ==> Fits(r, f, familyOf)
  {
    OfFamilyIn(entries, f, familyOf);
    AcceptsFit(serverID, host.dest(f), Ports(host), OfFamily(entries, f, familyOf), f, familyOf);
    LimitsFit(serverID, host.dest(f), Ports(host), p, f, familyOf);
  }
}
