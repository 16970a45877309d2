/** What an application of the DDoS policy guarantees about the INPUT chains. */
module DDoSRules {
  import opened Text
  import opened Sorting
  import opened RuleChains
  import opened Firewall

  /** Both families' chains keep bans before whitelist accepts before limits. */
  ghost predicate ChainsOrdered(c: Chains) {
    Ordered(c.v4, KindOf) && Ordered(c.v6, KindOf)
  }

  lemma DeletedKeepsOrder(c: Chains, needle: string, available: set<Family>, refused: Refused)
    requires ChainsOrdered(c)
    ensures ChainsOrdered(Deleted(c, needle, available, refused))
  {
    SurvivorsOrdered(c.v4, KindOf, Finds(needle), RefusedIn(refused, IPv4), 0);
    SurvivorsOrdered(c.v6, KindOf, Finds(needle), RefusedIn(refused, IPv6), 0);
  }

  /** A plan adds accepts and limits of its server, and nothing else. */
  ghost predicate PlanOk(p: Plan, serverID: string) {
    && (forall r :: r in p.accepts ==> KindOf(r) == Whitelist && Finds(Prefix(serverID))(r))
    && (forall r :: r in p.limits ==> KindOf(r) == Limit && Finds(Prefix(serverID))(r))
  }

  lemma OfFamilyIn(entries: seq<string>, f: Family, familyOf: FamilyOf)
    ensures forall e :: e in OfFamily(entries, f, familyOf) ==> e in entries && familyOf(e) == Some(f)
  {
  }

  lemma PlansOk(serverID: string, p: Policy, host: Host, entries: seq<string>, familyOf: FamilyOf,
                families: seq<Family>)
    requires Neutral(serverID) && forall e :: e in entries ==> Neutral(e)
    ensures forall i :: 0 <= i < |families| ==>
            PlanOk(PlansFor(serverID, p, host, entries, familyOf, families)[i], serverID)
  {
    forall i | 0 <= i < |families|
      ensures PlanOk(PlansFor(serverID, p, host, entries, familyOf, families)[i], serverID)
    {
      var f := families[i];
      OfFamilyIn(entries, f, familyOf);
      AcceptRulesKind(serverID, host.dest(f), Ports(host), OfFamily(entries, f, familyOf));
      LimitRulesKind(serverID, host.dest(f), Ports(host), p);
    }
  }

  lemma {:induction false} BuildAllKeepsOrder(c: Chains, plans: seq<Plan>, serverID: string, budget: nat)
    requires ChainsOrdered(c) && forall i :: 0 <= i < |plans| ==> PlanOk(plans[i], serverID)
    ensures ChainsOrdered(BuildAll(c, plans, budget))
    decreases |plans|
  {
    if plans != [] {
      var p := plans[0];
      assert PlanOk(plans[0], serverID);
      BuildOrdered(c.Get(p.family), KindOf, Finds(BAN), p.accepts, p.limits, budget);
      if budget >= Size(p) {
        BuildAllKeepsOrder(BuildOne(c, p, budget), plans[1..], serverID, budget - Size(p));
      }
    }
  }

  /** Applying the policy keeps the order, whatever the kernel refuses on the way. */
  lemma AppliedKeepsOrder(c: Chains, serverID: string, p: Policy, host: Host, entries: seq<string>, familyOf: FamilyOf,
                          refused: Refused, budget: nat)
    requires ChainsOrdered(c) && Neutral(serverID) && forall e :: e in entries ==> Neutral(e)
    ensures ChainsOrdered(Applied(c, serverID, p, host, entries, familyOf, refused, budget).0)
  {
    var base := Deleted(c, Prefix(serverID), host.available, refused);
    DeletedKeepsOrder(c, Prefix(serverID), host.available, refused);
    match FamiliesForServer(host, entries, familyOf)
    case None =>
    case Some(families) =>
      PlansOk(serverID, p, host, entries, familyOf, families);
      BuildAllKeepsOrder(base, PlansFor(serverID, p, host, entries, familyOf, families), serverID, budget);
  }

  // ---------- A successful application, chain by chain

  function FamilyPlan(plans: seq<Plan>, f: Family): Option<Plan> {
    if plans == [] then None else if plans[0].family == f then Some(plans[0]) else FamilyPlan(plans[1..], f)
  }

  ghost predicate OnePerFamily(plans: seq<Plan>) {
    forall i, j :: 0 <= i < j < |plans| ==> plans[i].family != plans[j].family
  }

  function InFull(chain: seq<Rule>, plan: Option<Plan>): seq<Rule> {
    match plan
    case None => chain
    case Some(p) => Build(chain, Finds(BAN), p.accepts, p.limits, Size(p))
  }

  /** With every addition accepted, each family's chain is its own plan carried out in full. */
  lemma {:induction false} BuildAllInFull(c: Chains, plans: seq<Plan>, budget: nat, f: Family)
    requires OnePerFamily(plans) && budget >= Additions(plans)
    ensures BuildAll(c, plans, budget).Get(f) == InFull(c.Get(f), FamilyPlan(plans, f))
    decreases |plans|
  {
    if plans != [] {
      var p := plans[0];
      var c' := BuildOne(c, p, budget);
      BuildAllInFull(c', plans[1..], budget - Size(p), f);
      BuildAllStep(c, c', plans, budget);
      BuildOneGet(c, p, budget, f);
      if p.family == f {
        NoneLater(plans);
      }
    }
  }

  lemma BuildAllStep(c: Chains, c': Chains, plans: seq<Plan>, budget: nat)
    requires plans != [] && budget >= Size(plans[0]) && c' == BuildOne(c, plans[0], budget)
    ensures BuildAll(c, plans, budget) == BuildAll(c', plans[1..], budget - Size(plans[0]))
  {
  }

  lemma SetGet(c: Chains, f: Family, chain: seq<Rule>, g: Family)
    ensures c.Set(f, chain).Get(g) == if f == g then chain else c.Get(g)
  {
  }

  lemma NoneLater(plans: seq<Plan>)
    requires plans != [] && OnePerFamily(plans)
    ensures FamilyPlan(plans[1..], plans[0].family).None?
  {
    FamilyPlanIndex(plans[1..], plans[0].family);
  }

  lemma BuildOneGet(c: Chains, p: Plan, budget: nat, f: Family)
    requires budget >= Size(p)
    ensures BuildOne(c, p, budget).Get(f) == if p.family == f then InFull(c.Get(f), Some(p)) else c.Get(f)
  {
  }

  lemma {:induction false} FamilyPlanIndex(plans: seq<Plan>, f: Family)
    ensures FamilyPlan(plans, f).Some? ==>
            exists i :: 0 <= i < |plans| && plans[i].family == f && plans[i] == FamilyPlan(plans, f).value
    ensures FamilyPlan(plans, f).None? ==> forall i :: 0 <= i < |plans| ==> plans[i].family != f
  {
    if plans != [] && plans[0].family != f {
      FamilyPlanIndex(plans[1..], f);
      if FamilyPlan(plans, f).Some? {
        var i :| 0 <= i < |plans[1..]| && plans[1..][i].family == f && plans[1..][i] == FamilyPlan(plans, f).value;
        assert plans[i + 1] == plans[1..][i];
      }
    }
  }

  lemma InOrderDistinct(families: set<Family>)
    ensures OneEach(InOrder(families))
    ensures forall f :: f in families <==> f in InOrder(families)
  {
    var v4 := if IPv4 in families then [IPv4] else [];
    var v6 := if IPv6 in families then [IPv6] else [];
    forall f ensures f in families <==> f in v4 + v6 {
      match f
      case IPv4 => assert IPv4 in v4 <==> IPv4 in families;
      case IPv6 => assert IPv6 in v6 <==> IPv6 in families;
    }
  }

  ghost predicate OneEach(families: seq<Family>) {
    forall i, j :: 0 <= i < j < |families| ==> families[i] != families[j]
  }

  /** The families written to are distinct, IPv4 first, installed, and include that of every entry. */
  lemma FamiliesAreComplete(host: Host, entries: seq<string>, familyOf: FamilyOf)
    requires FamiliesForServer(host, entries, familyOf).Some?
    ensures OneEach(FamiliesForServer(host, entries, familyOf).value)
    ensures forall e :: e in entries && familyOf(e).Some? ==>
            familyOf(e).value in FamiliesForServer(host, entries, familyOf).value
    ensures forall f :: f in FamiliesForServer(host, entries, familyOf).value ==> f in host.available
    ensures var families := FamiliesForServer(host, entries, familyOf).value;
            forall i, j :: 0 <= i < j < |families| ==> families[i] == IPv4 && families[j] == IPv6
  {
    var explicit := FamiliesIn([host.ip] + entries, familyOf);
    forall e | e in entries && familyOf(e).Some? ensures familyOf(e).value in explicit {
      assert e in [host.ip] + entries;
      assert familyOf(e).value in {IPv4, IPv6} by { match familyOf(e).value case IPv4 => case IPv6 => }
    }
    InOrderDistinct(host.localFamilies * host.available + explicit);
    InOrderDistinct({IPv4});
    InOrderDistinct({IPv6});
    InOrderDistinct({});
  }

  /** Nothing else is written to: a family is that of the host, of its address or of an entry, or,
      where there is none of these, the first one installed. */
  lemma FamiliesAreNeeded(host: Host, entries: seq<string>, familyOf: FamilyOf, f: Family)
    requires FamiliesForServer(host, entries, familyOf).Some?
    ensures var wanted := f in host.localFamilies * host.available || familyOf(host.ip) == Some(f)
                          || exists e :: e in entries && familyOf(e) == Some(f);
            var families := FamiliesForServer(host, entries, familyOf).value;
            && (wanted ==> f in families)
            && (f in families && !wanted ==> |families| == 1 && (f == IPv6 ==> IPv4 !in host.available))
  {
    var explicit := FamiliesIn([host.ip] + entries, familyOf);
    assert f in {IPv4, IPv6} by { match f case IPv4 => case IPv6 => }
    assert host.ip in [host.ip] + entries;
    forall e | e in entries ensures e in [host.ip] + entries {
    }
    assert f in explicit <==> familyOf(host.ip) == Some(f) || exists e :: e in entries && familyOf(e) == Some(f);
  }

  // ---------- Applying twice

  ghost predicate Unrefused(refused: Refused) {
    forall f, n :: !refused(f, n)
  }

  lemma DeletedIsWithout(c: Chains, needle: string, available: set<Family>, refused: Refused, f: Family)
    requires Unrefused(refused)
    ensures Deleted(c, needle, available, refused).Get(f)
            == if f in available then Without(c.Get(f), Finds(needle)) else c.Get(f)
  {
    NoneRefused(c.v4, Finds(needle), RefusedIn(refused, IPv4), 0);
    NoneRefused(c.v6, Finds(needle), RefusedIn(refused, IPv6), 0);
  }

  /** Deletion by the server's prefix undoes any part of any plans for that server. */
  lemma {:induction false} DeletionUndoesBuild(c: Chains, plans: seq<Plan>, serverID: string, available: set<Family>,
                                               refused: Refused, budget: nat, f: Family)
    requires Unrefused(refused)
    requires forall i :: 0 <= i < |plans| ==> PlanOk(plans[i], serverID) && plans[i].family in available
    ensures Deleted(BuildAll(c, plans, budget), Prefix(serverID), available, refused).Get(f)
            == Deleted(c, Prefix(serverID), available, refused).Get(f)
    decreases |plans|
  {
    if plans != [] {
      var p := plans[0];
      var c' := BuildOne(c, p, budget);
      assert PlanOk(plans[0], serverID);
      DeletedIsWithout(c, Prefix(serverID), available, refused, f);
      DeletedIsWithout(c', Prefix(serverID), available, refused, f);
      BuildUndone(c.Get(p.family), Finds(BAN), Finds(Prefix(serverID)), p.accepts, p.limits, budget);
      if budget >= Size(p) {
        DeletionUndoesBuild(c', plans[1..], serverID, available, refused, budget - Size(p), f);
      }
    }
  }

  lemma DeletedTwice(c: Chains, needle: string, available: set<Family>, refused: Refused, f: Family)
    requires Unrefused(refused)
    ensures Deleted(Deleted(c, needle, available, refused), needle, available, refused).Get(f)
            == Deleted(c, needle, available, refused).Get(f)
  {
    var d := Deleted(c, needle, available, refused);
    DeletedIsWithout(c, needle, available, refused, f);
    DeletedIsWithout(d, needle, available, refused, f);
    WithoutAll(c.Get(f), Finds(needle));
    WithoutAll(Without(c.Get(f), Finds(needle)), Finds(needle));
  }

  lemma SameChains(a: Chains, b: Chains)
    requires forall f :: a.Get(f) == b.Get(f)
    ensures a == b
  {
    assert a.Get(IPv4) == b.Get(IPv4) && a.Get(IPv6) == b.Get(IPv6);
  }

  /** Applying the same policy again changes nothing, from any chain and however far the first
      application got, as long as deletions are not refused. */
  lemma ApplyingTwiceIsApplyingOnce(c: Chains, serverID: string, p: Policy, host: Host, entries: seq<string>,
                                    familyOf: FamilyOf, refused: Refused, budget: nat)
    requires Unrefused(refused)
    requires Neutral(serverID) && forall e :: e in entries ==> Neutral(e)
    ensures var once := Applied(c, serverID, p, host, entries, familyOf, refused, budget);
            Applied(once.0, serverID, p, host, entries, familyOf, refused, budget) == once
  {
    if serverID != "" {
      OnceDeletedIsBase(c, serverID, p, host, entries, familyOf, refused, budget);
    }
  }

  /** Deleting the server's rules after an application leaves what deleting before it left. */
  lemma OnceDeletedIsBase(c: Chains, serverID: string, p: Policy, host: Host, entries: seq<string>,
                          familyOf: FamilyOf, refused: Refused, budget: nat)
    requires Unrefused(refused) && serverID != ""
    requires Neutral(serverID) && forall e :: e in entries ==> Neutral(e)
    ensures var once := Applied(c, serverID, p, host, entries, familyOf, refused, budget).0;
            Deleted(once, Prefix(serverID), host.available, refused)
              == Deleted(c, Prefix(serverID), host.available, refused)
  {
    var needle := Prefix(serverID);
    var base := Deleted(c, needle, host.available, refused);
    var once := Applied(c, serverID, p, host, entries, familyOf, refused, budget).0;
    forall f ensures Deleted(once, needle, host.available, refused).Get(f) == base.Get(f) {
      DeletedTwice(c, needle, host.available, refused, f);
      if once != base {
        var families := FamiliesForServer(host, entries, familyOf).value;
        FamiliesAreComplete(host, entries, familyOf);
        PlansOk(serverID, p, host, entries, familyOf, families);
        DeletionUndoesBuild(base, PlansFor(serverID, p, host, entries, familyOf, families), serverID,
                            host.available, refused, budget, f);
      }
    }
    SameChains(Deleted(once, needle, host.available, refused), base);
  }

  // ---------- Shape and number of the whitelist accepts

  /** Plans of the families written to. */
  lemma FamilyPlanOf(serverID: string, p: Policy, host: Host, entries: seq<string>, familyOf: FamilyOf,
                     families: seq<Family>, f: Family)
    requires OneEach(families)
    ensures OnePerFamily(PlansFor(serverID, p, host, entries, familyOf, families))
    ensures FamilyPlan(PlansFor(serverID, p, host, entries, familyOf, families), f)
            == if f in families then Some(PlanFor(serverID, p, host, entries, familyOf, f)) else None
  {
    var plans := PlansFor(serverID, p, host, entries, familyOf, families);
    FamilyPlanIndex(plans, f);
    if f in families {
      var i :| 0 <= i < |families| && families[i] == f;
      assert plans[i].family == f;
    }
  }

  /** A successful application leaves each family written to with: its old rules up to the last
      ban, all whitelist accepts in one block, its other old rules, all limits; and the block
      still starts right behind the last ban. */
  lemma SuccessfulApplication(c: Chains, serverID: string, p: Policy, host: Host, entries: seq<string>,
                              familyOf: FamilyOf, refused: Refused, budget: nat, f: Family)
    requires p.enabled && TrimSpace(serverID) == "0" && Neutral(serverID) && forall e :: e in entries ==> Neutral(e)
    requires Applied(c, serverID, p, host, entries, familyOf, refused, budget).1
    ensures FamiliesForServer(host, entries, familyOf).Some?
    ensures var families := FamiliesForServer(host, entries, familyOf).value;
            var base := Deleted(c, Prefix(serverID), host.available, refused).Get(f);
            var after := Applied(c, serverID, p, host, entries, familyOf, refused, budget).0.Get(f);
            var plan := PlanFor(serverID, p, host, entries, familyOf, f);
            var k := LastPosition(base, Finds(BAN));
            if f in families
            then after == base[..k] + plan.accepts + base[k..] + plan.limits && LastPosition(after, Finds(BAN)) == k
            else after == base
  {
    var families := FamiliesForServer(host, entries, familyOf).value;
    var base := Deleted(c, Prefix(serverID), host.available, refused);
    var plans := PlansFor(serverID, p, host, entries, familyOf, families);
    FamiliesAreComplete(host, entries, familyOf);
    FamilyPlanOf(serverID, p, host, entries, familyOf, families, f);
    BuildAllInFull(base, plans, budget, f);
    if f in families {
      var plan := PlanFor(serverID, p, host, entries, familyOf, f);
      PlansOk(serverID, p, host, entries, familyOf, [f]);
      assert PlanOk(PlansFor(serverID, p, host, entries, familyOf, [f])[0], serverID);
      PlanHasNoBans(plan, serverID);
      BuildKeepsLastBan(base.Get(f), Finds(BAN), plan.accepts, plan.limits, Size(plan));
    }
  }

  lemma PlanHasNoBans(plan: Plan, serverID: string)
    requires PlanOk(plan, serverID)
    ensures forall r :: r in plan.accepts + plan.limits ==> !Finds(BAN)(r)
  {
    forall r | r in plan.accepts + plan.limits ensures !Finds(BAN)(r) {
      assert KindOf(r) == Whitelist || KindOf(r) == Limit;
    }
  }

  /** The whitelist accepts of a server. */
  function AcceptsOf(serverID: string): Rule -> bool {
    (r: Rule) => Contains(r.comment, Prefix(serverID)) && r.target == Accept
  }

  lemma {:induction false} FamiliesSplit(entries: seq<string>, familyOf: FamilyOf)
    requires forall e :: e in entries ==> familyOf(e).Some?
    ensures |OfFamily(entries, IPv4, familyOf)| + |OfFamily(entries, IPv6, familyOf)| == |entries|
  {
    if entries != [] {
      assert entries[0] in entries;
      assert familyOf(entries[0]) == Some(IPv4) || familyOf(entries[0]) == Some(IPv6) by {
        match familyOf(entries[0]).value case IPv4 => case IPv6 =>
      }
      FamiliesSplit(entries[1..], familyOf);
    }
  }

  lemma {:induction false} NoneOfFamily(entries: seq<string>, f: Family, familyOf: FamilyOf)
    requires forall e :: e in entries ==> familyOf(e) != Some(f)
    ensures OfFamily(entries, f, familyOf) == []
  {
    if entries != [] {
      assert entries[0] in entries;
      NoneOfFamily(entries[1..], f, familyOf);
    }
  }

  /** In one family: a port times as many accepts as the family has entries. */
  lemma AcceptsInFamily(c: Chains, serverID: string, p: Policy, host: Host, entries: seq<string>,
                        familyOf: FamilyOf, refused: Refused, budget: nat, f: Family)
    requires Unrefused(refused)
    requires p.enabled && TrimSpace(serverID) == "0" && Neutral(serverID) && forall e :: e in entries ==> Neutral(e)
    requires Applied(c, serverID, p, host, entries, familyOf, refused, budget).1
    requires f !in host.available ==> c.Get(f) == []
    ensures CountIf(Applied(c, serverID, p, host, entries, familyOf, refused, budget).0.Get(f), AcceptsOf(serverID))
            == |Ports(host)| * |OfFamily(entries, f, familyOf)|
  {
    var families := FamiliesForServer(host, entries, familyOf).value;
    var base := Deleted(c, Prefix(serverID), host.available, refused).Get(f);
    SuccessfulApplication(c, serverID, p, host, entries, familyOf, refused, budget, f);
    FamiliesAreComplete(host, entries, familyOf);
    NoneLeft(c, serverID, host.available, refused, f);
    if f in families {
      var plan := PlanFor(serverID, p, host, entries, familyOf, f);
      PlanCounted(serverID, p, host, entries, familyOf, f);
      CountWithInserts(base, LastPosition(base, Finds(BAN)), plan.accepts, plan.limits, AcceptsOf(serverID));
    } else {
      forall e | e in entries ensures familyOf(e) != Some(f) {
        assert familyOf(e).Some? ==> familyOf(e).value in families;
      }
      NoneOfFamily(entries, f, familyOf);
    }
  }

  lemma NoneLeft(c: Chains, serverID: string, available: set<Family>, refused: Refused, f: Family)
    requires Unrefused(refused)
    requires f !in available ==> c.Get(f) == []
    ensures CountIf(Deleted(c, Prefix(serverID), available, refused).Get(f), AcceptsOf(serverID)) == 0
  {
    var base := Deleted(c, Prefix(serverID), available, refused).Get(f);
    DeletedIsWithout(c, Prefix(serverID), available, refused, f);
    WithoutAll(c.Get(f), Finds(Prefix(serverID)));
    forall r | r in base ensures !AcceptsOf(serverID)(r) {
      assert !Finds(Prefix(serverID))(r);
    }
    CountAll(base, AcceptsOf(serverID));
  }

  lemma PlanCounted(serverID: string, p: Policy, host: Host, entries: seq<string>, familyOf: FamilyOf, f: Family)
    requires Neutral(serverID) && forall e :: e in entries ==> Neutral(e)
    ensures var plan := PlanFor(serverID, p, host, entries, familyOf, f);
            && CountIf(plan.accepts, AcceptsOf(serverID)) == |Ports(host)| * |OfFamily(entries, f, familyOf)|
            && CountIf(plan.limits, AcceptsOf(serverID)) == 0
  {
    OfFamilyIn(entries, f, familyOf);
    AcceptRulesKind(serverID, host.dest(f), Ports(host), OfFamily(entries, f, familyOf));
    LimitRulesKind(serverID, host.dest(f), Ports(host), p);
    AcceptsCounted(PlanFor(serverID, p, host, entries, familyOf, f), serverID);
  }

  lemma AcceptsCounted(plan: Plan, serverID: string)
    requires PlanOk(plan, serverID)
    ensures CountIf(plan.accepts, AcceptsOf(serverID)) == |plan.accepts|
    ensures CountIf(plan.limits, AcceptsOf(serverID)) == 0
  {
    forall r | r in plan.accepts ensures AcceptsOf(serverID)(r) {
      assert KindOf(r) == Whitelist && Finds(Prefix(serverID))(r);
    }
    forall r | r in plan.limits ensures !AcceptsOf(serverID)(r) {
      assert KindOf(r) == Limit;
    }
    CountAll(plan.accepts, AcceptsOf(serverID));
    CountAll(plan.limits, AcceptsOf(serverID));
  }

  /** Over both families the server's whitelist accepts number ports times entries. */
  lemma WhitelistAcceptsCounted(c: Chains, serverID: string, p: Policy, host: Host, entries: seq<string>,
                                familyOf: FamilyOf, refused: Refused, budget: nat)
    requires Unrefused(refused)
    requires p.enabled && TrimSpace(serverID) == "0" && Neutral(serverID)
    requires forall e :: e in entries ==> Neutral(e) && familyOf(e).Some?
    requires forall f :: f !in host.available ==> c.Get(f) == []
    requires Applied(c, serverID, p, host, entries, familyOf, refused, budget).1
    ensures var after := Applied(c, serverID, p, host, entries, familyOf, refused, budget).0;
            CountIf(after.v4, AcceptsOf(serverID)) + CountIf(after.v6, AcceptsOf(serverID)) == |Ports(host)| * |entries|
  {
    AcceptsInFamily(c, serverID, p, host, entries, familyOf, refused, budget, IPv4);
    AcceptsInFamily(c, serverID, p, host, entries, familyOf, refused, budget, IPv6);
    FamiliesSplit(entries, familyOf);
    CountBoth(Applied(c, serverID, p, host, entries, familyOf, refused, budget).0, AcceptsOf(serverID), |Ports(host)|,
              |OfFamily(entries, IPv4, familyOf)|, |OfFamily(entries, IPv6, familyOf)|, |entries|);
  }

  lemma CountBoth(c: Chains, counts: Rule -> bool, n: nat, a: nat, b: nat, m: nat)
    requires CountIf(c.Get(IPv4), counts) == n * a && CountIf(c.Get(IPv6), counts) == n * b && a + b == m
    ensures CountIf(c.v4, counts) + CountIf(c.v6, counts) == n * m
  {
    Distributes(n, a, b);
  }

  lemma Distributes(n: nat, a: nat, b: nat)
    ensures n * a + n * b == n * (a + b)
  {
  }

  /** A policy that is off, or a server that is not the system's, only loses its rules. */
  lemma DisabledPolicyClears(c: Chains, serverID: string, p: Policy, host: Host, entries: seq<string>,
                             familyOf: FamilyOf, refused: Refused, budget: nat, f: Family)
    requires Unrefused(refused) && (f !in host.available ==> c.Get(f) == []) && serverID != ""
    requires !p.enabled || TrimSpace(serverID) != "0"
    ensures var (after, ok) := Applied(c, serverID, p, host, entries, familyOf, refused, budget);
            && ok && after.Get(f) == Without(c.Get(f), Finds(Prefix(serverID)))
            && forall r :: r in after.Get(f) <==> r in c.Get(f) && !Contains(r.comment, Prefix(serverID))
  {
    DeletedIsWithout(c, Prefix(serverID), host.available, refused, f);
    WithoutAll(c.Get(f), Finds(Prefix(serverID)));
    forall r ensures Finds(Prefix(serverID))(r) <==> Contains(r.comment, Prefix(serverID)) {
    }
  }

  // ---------- What an application writes, told by the fields of the rules

  predicate Admits(r: Rule, entry: string, dest: string, port: nat) {
    r.target == Accept && r.source == entry && r.dest == dest && r.port == port && r.options == NoOptions
  }

  predicate Limits(r: Rule, dest: string, port: nat, o: Options) {
    r.target == Drop && r.source == "" && r.dest == dest && r.port == port && r.options == o
  }

  /** A limit the policy sets. */
  predicate Wanted(p: Policy, o: Options) {
    match o
    case ConnLimit(limit) => limit == p.connLimit > 0
    case HashLimit(rate, burst, false) => rate == p.rateLimit > 0 && burst == if p.burst < 1 then 1 else p.burst
    case HashLimit(rate, burst, true) => rate == p.synRate > 0 && burst == if p.synBurst < 1 then 1 else p.synBurst
    case _ => false
  }

  lemma {:induction false} AcceptRuleIs(serverID: string, dest: string, ports: seq<nat>, entries: seq<string>, r: Rule)
    returns (port: nat, entry: string)
    requires r in AcceptRules(serverID, dest, ports, entries)
    ensures port in ports && entry in entries && Admits(r, entry, dest, port)
  {
    if r in AcceptsAt(serverID, dest, ports[0], entries) {
      var i :| 0 <= i < |entries| && AcceptsAt(serverID, dest, ports[0], entries)[i] == r;
      port, entry := ports[0], entries[i];
    } else {
      port, entry := AcceptRuleIs(serverID, dest, ports[1..], entries, r);
    }
  }

  lemma {:induction false} AcceptRuleFor(serverID: string, dest: string, ports: seq<nat>, entries: seq<string>,
                                         port: nat, entry: string)
    returns (r: Rule)
    requires port in ports && entry in entries
    ensures r in AcceptRules(serverID, dest, ports, entries) && Admits(r, entry, dest, port)
  {
    if port == ports[0] {
      var i :| 0 <= i < |entries| && entries[i] == entry;
      r := AcceptsAt(serverID, dest, port, entries)[i];
    } else {
      r := AcceptRuleFor(serverID, dest, ports[1..], entries, port, entry);
    }
  }

  lemma {:induction false} LimitRuleIs(serverID: string, dest: string, ports: seq<nat>, p: Policy, r: Rule)
    returns (port: nat)
    requires r in LimitRules(serverID, dest, ports, p)
    ensures port in ports && Wanted(p, r.options) && Limits(r, dest, port, r.options)
  {
    if r in LimitsAt(serverID, dest, ports[0], p) {
      port := ports[0];
    } else {
      port := LimitRuleIs(serverID, dest, ports[1..], p, r);
    }
  }

  lemma {:induction false} LimitRuleFor(serverID: string, dest: string, ports: seq<nat>, p: Policy, port: nat,
                                        o: Options)
    returns (r: Rule)
    requires port in ports && Wanted(p, o)
    ensures r in LimitRules(serverID, dest, ports, p) && Limits(r, dest, port, o)
  {
    if port == ports[0] {
      r := LimitAt(serverID, dest, port, p, o);
    } else {
      r := LimitRuleFor(serverID, dest, ports[1..], p, port, o);
    }
  }

  lemma LimitAt(serverID: string, dest: string, port: nat, p: Policy, o: Options) returns (r: Rule)
    requires Wanted(p, o)
    ensures r in LimitsAt(serverID, dest, port, p) && Limits(r, dest, port, o)
  {
    r := LimitRule(serverID, dest, port, if o.ConnLimit? then "CL" else if o.synOnly then "SYN" else "RL", o);
  }

  lemma {:induction false} OfFamilyHas(entries: seq<string>, f: Family, familyOf: FamilyOf, e: string)
    ensures e in OfFamily(entries, f, familyOf) <==> e in entries && familyOf(e) == Some(f)
  {
    if entries != [] {
      OfFamilyHas(entries[1..], f, familyOf, e);
      assert entries == [entries[0]] + entries[1..];
    }
  }

  /** The rules of a family after a successful application: those without the server's prefix that
      were there, and those of the plan. */
  lemma AppliedRules(c: Chains, serverID: string, p: Policy, host: Host, entries: seq<string>,
                     familyOf: FamilyOf, refused: Refused, budget: nat, f: Family, r: Rule)
    requires Unrefused(refused) && (f !in host.available ==> c.Get(f) == [])
    requires p.enabled && TrimSpace(serverID) == "0" && Neutral(serverID) && forall e :: e in entries ==> Neutral(e)
    requires Applied(c, serverID, p, host, entries, familyOf, refused, budget).1
    ensures FamiliesForServer(host, entries, familyOf).Some?
    ensures var plan := PlanFor(serverID, p, host, entries, familyOf, f);
            var written := f in FamiliesForServer(host, entries, familyOf).value;
            r in Applied(c, serverID, p, host, entries, familyOf, refused, budget).0.Get(f)
            <==> (r in c.Get(f) && !Contains(r.comment, Prefix(serverID)))
                 || (written && (r in plan.accepts || r in plan.limits))
  {
    var base := Deleted(c, Prefix(serverID), host.available, refused).Get(f);
    SuccessfulApplication(c, serverID, p, host, entries, familyOf, refused, budget, f);
    DeletedIsWithout(c, Prefix(serverID), host.available, refused, f);
    WithoutAll(c.Get(f), Finds(Prefix(serverID)));
    assert r in base <==> r in c.Get(f) && !Finds(Prefix(serverID))(r);
    var k := LastPosition(base, Finds(BAN));
    InFourParts(base, k, PlanFor(serverID, p, host, entries, familyOf, f).accepts,
                PlanFor(serverID, p, host, entries, familyOf, f).limits, r);
  }

  lemma InFourParts<T>(base: seq<T>, k: nat, a: seq<T>, b: seq<T>, r: T)
    requires k <= |base|
    ensures r in base[..k] + a + base[k..] + b <==> r in base || r in a || r in b
  {
    assert base == base[..k] + base[k..];
  }

  /** The whitelist after a successful application: in each family, for each port and each entry of
      the family, an accept from the entry to the server, and no other of the server's accepts. */
  lemma AppliedAccepts(c: Chains, serverID: string, p: Policy, host: Host, entries: seq<string>,
                       familyOf: FamilyOf, refused: Refused, budget: nat, f: Family)
    requires Unrefused(refused) && (f !in host.available ==> c.Get(f) == [])
    requires p.enabled && TrimSpace(serverID) == "0" && Neutral(serverID) && forall e :: e in entries ==> Neutral(e)
    requires Applied(c, serverID, p, host, entries, familyOf, refused, budget).1
    ensures var chain := Applied(c, serverID, p, host, entries, familyOf, refused, budget).0.Get(f);
            && (forall port, e :: port in Ports(host) && e in entries && familyOf(e) == Some(f) ==>
                  exists r :: r in chain && Admits(r, e, host.dest(f), port))
            && (forall r :: r in chain && r.target == Accept && Contains(r.comment, Prefix(serverID)) ==>
                  exists port, e :: port in Ports(host) && e in entries && familyOf(e) == Some(f)
                                    && Admits(r, e, host.dest(f), port))
  {
    var chain := Applied(c, serverID, p, host, entries, familyOf, refused, budget).0.Get(f);
    forall port, e | port in Ports(host) && e in entries && familyOf(e) == Some(f)
      ensures exists r :: r in chain && Admits(r, e, host.dest(f), port)
    {
      var r := AppliedAcceptFor(c, serverID, p, host, entries, familyOf, refused, budget, f, port, e);
    }
    forall r | r in chain && r.target == Accept && Contains(r.comment, Prefix(serverID))
      ensures exists port, e :: port in Ports(host) && e in entries && familyOf(e) == Some(f)
                                && Admits(r, e, host.dest(f), port)
    {
      var port, e := AppliedAcceptIs(c, serverID, p, host, entries, familyOf, refused, budget, f, r);
    }
  }

  lemma AppliedAcceptFor(c: Chains, serverID: string, p: Policy, host: Host, entries: seq<string>,
                         familyOf: FamilyOf, refused: Refused, budget: nat, f: Family, port: nat, e: string)
    returns (r: Rule)
    requires Unrefused(refused) && (f !in host.available ==> c.Get(f) == [])
    requires p.enabled && TrimSpace(serverID) == "0" && Neutral(serverID) && forall e :: e in entries ==> Neutral(e)
    requires Applied(c, serverID, p, host, entries, familyOf, refused, budget).1
    requires port in Ports(host) && e in entries && familyOf(e) == Some(f)
    ensures r in Applied(c, serverID, p, host, entries, familyOf, refused, budget).0.Get(f)
    ensures Admits(r, e, host.dest(f), port) && KindOf(r) == Whitelist
  {
    OfFamilyHas(entries, f, familyOf, e);
    OfFamilyIn(entries, f, familyOf);
    r := AcceptRuleFor(serverID, host.dest(f), Ports(host), OfFamily(entries, f, familyOf), port, e);
    AcceptRulesKind(serverID, host.dest(f), Ports(host), OfFamily(entries, f, familyOf));
    AppliedRules(c, serverID, p, host, entries, familyOf, refused, budget, f, r);
    FamiliesAreComplete(host, entries, familyOf);
  }

  lemma AppliedAcceptIs(c: Chains, serverID: string, p: Policy, host: Host, entries: seq<string>,
                        familyOf: FamilyOf, refused: Refused, budget: nat, f: Family, r: Rule)
    returns (port: nat, e: string)
    requires Unrefused(refused) && (f !in host.available ==> c.Get(f) == [])
    requires p.enabled && TrimSpace(serverID) == "0" && Neutral(serverID) && forall e :: e in entries ==> Neutral(e)
    requires Applied(c, serverID, p, host, entries, familyOf, refused, budget).1
    requires r in Applied(c, serverID, p, host, entries, familyOf, refused, budget).0.Get(f)
    requires r.target == Accept && Contains(r.comment, Prefix(serverID))
    ensures port in Ports(host) && e in entries && familyOf(e) == Some(f) && Admits(r, e, host.dest(f), port)
  {
    AppliedRules(c, serverID, p, host, entries, familyOf, refused, budget, f, r);
    var plan := PlanFor(serverID, p, host, entries, familyOf, f);
    if r in plan.limits {
      var unused := LimitRuleIs(serverID, host.dest(f), Ports(host), p, r);
    }
    port, e := AcceptRuleIs(serverID, host.dest(f), Ports(host), OfFamily(entries, f, familyOf), r);
    OfFamilyHas(entries, f, familyOf, e);
  }

  /** The limits after a successful application: in each family written to, for each port each
      limit of the policy on traffic to the server, and no other of the server's drops. */
  lemma AppliedLimits(c: Chains, serverID: string, p: Policy, host: Host, entries: seq<string>,
                      familyOf: FamilyOf, refused: Refused, budget: nat, f: Family)
    requires Unrefused(refused) && (f !in host.available ==> c.Get(f) == [])
    requires p.enabled && TrimSpace(serverID) == "0" && Neutral(serverID) && forall e :: e in entries ==> Neutral(e)
    requires Applied(c, serverID, p, host, entries, familyOf, refused, budget).1
    ensures FamiliesForServer(host, entries, familyOf).Some?
    ensures var chain := Applied(c, serverID, p, host, entries, familyOf, refused, budget).0.Get(f);
            var written := f in FamiliesForServer(host, entries, familyOf).value;
            && (forall port, o :: written && port in Ports(host) && Wanted(p, o) ==>
                  exists r :: r in chain && Limits(r, host.dest(f), port, o))
            && (forall r :: r in chain && r.target == Drop && Contains(r.comment, Prefix(serverID)) ==>
                  written && exists port, o :: port in Ports(host) && Wanted(p, o) && Limits(r, host.dest(f), port, o))
  {
    var chain := Applied(c, serverID, p, host, entries, familyOf, refused, budget).0.Get(f);
    SuccessfulApplication(c, serverID, p, host, entries, familyOf, refused, budget, f);
    var written := f in FamiliesForServer(host, entries, familyOf).value;
    forall port, o | written && port in Ports(host) && Wanted(p, o)
      ensures exists r :: r in chain && Limits(r, host.dest(f), port, o)
    {
      var r := LimitRuleFor(serverID, host.dest(f), Ports(host), p, port, o);
      AppliedRules(c, serverID, p, host, entries, familyOf, refused, budget, f, r);
    }
    forall r | r in chain && r.target == Drop && Contains(r.comment, Prefix(serverID))
      ensures written && exists port, o :: port in Ports(host) && Wanted(p, o) && Limits(r, host.dest(f), port, o)
    {
      var port := AppliedLimitIs(c, serverID, p, host, entries, familyOf, refused, budget, f, r);
    }
  }

  lemma AppliedLimitIs(c: Chains, serverID: string, p: Policy, host: Host, entries: seq<string>,
                       familyOf: FamilyOf, refused: Refused, budget: nat, f: Family, r: Rule)
    returns (port: nat)
    requires Unrefused(refused) && (f !in host.available ==> c.Get(f) == [])
    requires p.enabled && TrimSpace(serverID) == "0" && Neutral(serverID) && forall e :: e in entries ==> Neutral(e)
    requires Applied(c, serverID, p, host, entries, familyOf, refused, budget).1
    requires r in Applied(c, serverID, p, host, entries, familyOf, refused, budget).0.Get(f)
    requires r.target == Drop && Contains(r.comment, Prefix(serverID))
    ensures FamiliesForServer(host, entries, familyOf).Some? && f in FamiliesForServer(host, entries, familyOf).value
    ensures port in Ports(host) && Wanted(p, r.options) && Limits(r, host.dest(f), port, r.options)
  {
    AppliedRules(c, serverID, p, host, entries, familyOf, refused, budget, f, r);
    var plan := PlanFor(serverID, p, host, entries, familyOf, f);
    if r in plan.accepts {
      var unused, e := AcceptRuleIs(serverID, host.dest(f), Ports(host), OfFamily(entries, f, familyOf), r);
    }
    port := LimitRuleIs(serverID, host.dest(f), Ports(host), p, r);
  }

  /** So a packet from a listed source to such a port meets an accept or a ban before any limit,
      whatever limits it exceeds. */
  lemma ListedSourceMeetsNoLimit(c: Chains, serverID: string, p: Policy, host: Host, entries: seq<string>,
                                 familyOf: FamilyOf, refused: Refused, budget: nat, f: Family, e: string,
                                 covers: (string, string) -> bool, over: Rule -> bool, packet: Packet)
    requires ChainsOrdered(c) && Unrefused(refused) && (f !in host.available ==> c.Get(f) == [])
    requires p.enabled && TrimSpace(serverID) == "0" && Neutral(serverID) && forall e :: e in entries ==> Neutral(e)
    requires Applied(c, serverID, p, host, entries, familyOf, refused, budget).1
    requires e in entries && familyOf(e) == Some(f) && covers(e, packet.source) && packet.port in Ports(host)
    requires host.dest(f) == "" || covers(host.dest(f), packet.dest)
    ensures var chain := Applied(c, serverID, p, host, entries, familyOf, refused, budget).0.Get(f);
            var first := FirstManaged(chain, KindOf, Hits(covers, over, packet));
            first.Some? && KindOf(first.value) != Limit
  {
    var chain := Applied(c, serverID, p, host, entries, familyOf, refused, budget).0.Get(f);
    var r := AppliedAcceptFor(c, serverID, p, host, entries, familyOf, refused, budget, f, packet.port, e);
    AppliedKeepsOrder(c, serverID, p, host, entries, familyOf, refused, budget);
    var k :| 0 <= k < |chain| && chain[k] == r;
    assert Hits(covers, over, packet)(r);
    FirstMatchRespectsOrder(chain, KindOf, Hits(covers, over, packet), k);
  }

  // ---------- Rules of other servers

  /** A rule's comment holds a server's prefix exactly if it starts with it. */
  lemma PrefixFound(s: string, rest: string)
    requires 'G' !in rest
    ensures Contains(DDOS + rest, Prefix(s)) <==> s + ":" <= rest
  {
    var c, p := DDOS + rest, Prefix(s);
    assert c[0] == 'G' && p[0] == 'G';
    if Contains(c, p) {
      var i :| 0 <= i <= |c| && OccursAt(c, p, i);
      assert c[i..i + |p|][0] == c[i];
      MarkStandsFirst(rest, i);
      SamePrefix(DDOS, s + ":", rest);
      assert p == DDOS + (s + ":");
    }
    if s + ":" <= rest {
      assert p == DDOS + (s + ":");
      SamePrefix(DDOS, s + ":", rest);
      PrefixIsContained(c, p);
    }
  }

  lemma SamePrefix(a: string, b: string, rest: string)
    ensures a + b <= a + rest <==> b <= rest
  {
    assert (a + rest)[|a|..] == rest && (a + b)[|a|..] == b;
    if a + b <= a + rest {
      assert (a + rest)[..|a + b|] == a + b;
      assert rest[..|b|] == b;
    }
  }

  lemma MarkStandsFirst(rest: string, i: nat)
    requires 'G' !in rest && i < |DDOS + rest| && (DDOS + rest)[i] == 'G'
    ensures i == 0
  {
    assert i < |DDOS|;
    assert DDOS[i] == 'G';
  }

  lemma FirstColon(s: string, t: string, tail: string)
    requires ':' !in s && ':' !in t
    ensures s + ":" <= t + ":" + tail <==> s == t
  {
    var x, y := s + ":", t + ":" + tail;
    if x <= y {
      assert y[..|x|] == x && y[|s|] == ':' && y[|t|] == ':';
      assert |s| <= |t| && |t| <= |s|;
      assert s == x[..|s|] && t == y[..|t|];
    }
  }

  /** What clears one server's rules finds no rule of another server, be its number a prefix of the
      other's or not. */
  lemma OnlyOwnRulesAreFound(s: string, t: string, dest: string, port: nat, entry: string, kind: string, o: Options)
    requires ':' !in s && ':' !in t && 'G' !in t && 'G' !in entry && 'G' !in kind
    ensures Finds(Prefix(s))(AcceptRule(t, dest, port, entry)) <==> s == t
    ensures Finds(Prefix(s))(LimitRule(t, dest, port, kind, o)) <==> s == t
  {
    ItoaIsDigits(port);
    var a, b := "WL:" + Itoa(port) + ":" + entry, kind + Itoa(port);
    assert 'G' !in a && 'G' !in b;
    assert AcceptRule(t, dest, port, entry).comment == DDOS + (t + ":" + a);
    assert LimitRule(t, dest, port, kind, o).comment == DDOS + (t + ":" + b);
    PrefixFound(s, t + ":" + a);
    PrefixFound(s, t + ":" + b);
    FirstColon(s, t, a);
    FirstColon(s, t, b);
  }

  /** The ports are those of the server's sites, and 80 and 443 where there are none. */
  lemma PortsAre(host: Host, port: nat)
    ensures port in Ports(host) <==> port in host.ports || (|host.ports| == 0 && (port == 80 || port == 443))
  {
  }
}
