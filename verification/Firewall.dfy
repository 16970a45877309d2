/** iptables INPUT and FORWARD chains, and the rules the DDoS policy keeps in INPUT. Whether the
    kernel accepts a command enters as a parameter. */
module Firewall {
  import opened Text
  import opened Sorting
  import opened RuleChains

  datatype Family = IPv4 | IPv6

  datatype Target = Accept | Drop | Other(name: string)

  /** What a rule asks of a packet beyond addresses and port: nothing, more connections than a
      limit, or a higher rate than a limit, of all packets or of connection requests. */
  datatype Options =
    | NoOptions
    | ConnLimit(limit: int)
    | HashLimit(rate: int, burst: int, synOnly: bool)
    | OtherOptions(text: string)

  /** A rule of a chain, for TCP. An empty address or the port 0 leaves that open. */
  datatype Rule = Rule(target: Target, source: string, dest: string, port: nat, options: Options, comment: string)

  datatype Packet = Packet(source: string, dest: string, port: nat)

  /** Whether a packet meets a rule: `covers` relates the addresses and networks rules are written
      with to addresses, `over` tells which limits the packet exceeds. */
  function Hits(covers: (string, string) -> bool, over: Rule -> bool, p: Packet): Rule -> bool {
    (r: Rule) =>
      && (r.source == "" || covers(r.source, p.source)) && (r.dest == "" || covers(r.dest, p.dest))
      && (r.port == 0 || r.port == p.port) && (r.options == NoOptions || over(r))
  }

  const DDOS: string := "GoResolver:DDoS:"
  const BAN: string := "GoResolver:Fail2Ban:"

  /** The listing lines that contain a text. Only their comment column can: the texts searched for
      start with the program's own name. */
  function Finds(needle: string): Rule -> bool {
    (r: Rule) => Contains(r.comment, needle)
  }

  function KindOf(r: Rule): Kind {
    if Contains(r.comment, BAN) then Ban
    else if !Contains(r.comment, DDOS) then Unmanaged
    else if r.target == Accept then Whitelist
    else if r.target == Drop then Limit
    else Unmanaged
  }

  /** One chain per address family. */
  datatype Chains = Chains(v4: seq<Rule>, v6: seq<Rule>) {
    function Get(f: Family): seq<Rule> {
      if f == IPv4 then v4 else v6
    }

    function Set(f: Family, c: seq<Rule>): Chains {
      if f == IPv4 then this.(v4 := c) else this.(v6 := c)
    }
  }

  // ---------- Single commands

  /** A rule to add: where (None appends) and in which family, if that is given. */
  datatype RuleSpec = RuleSpec(family: Option<Family>, position: Option<nat>, rule: Rule)

  type FamilyOf = string -> Option<Family>

  /** The given family, or else that of an address in the rule, or else IPv4; no mixture. */
  function InferFamily(spec: RuleSpec, familyOf: FamilyOf): Option<Family> {
    var s, d := familyOf(spec.rule.source), familyOf(spec.rule.dest);
    var f1 := if spec.family.Some? then spec.family else s;
    var f2 := if f1.Some? then f1 else d;
    if (s.Some? && f1 != s) || (d.Some? && f2 != d) then None
    else if f2.Some? then f2 else Some(IPv4)
  }

  /** No family exactly for a mixture; else the one there is, or IPv4 where nothing tells. */
  lemma InferFamilyIs(spec: RuleSpec, familyOf: FamilyOf)
    ensures var s, d, r := familyOf(spec.rule.source), familyOf(spec.rule.dest), InferFamily(spec, familyOf);
            && (r.None? <==> || (spec.family.Some? && s.Some? && spec.family != s)
                             || (spec.family.Some? && d.Some? && spec.family != d)
                             || (s.Some? && d.Some? && s != d))
            && (r.Some? ==>
                  && (spec.family.Some? ==> r == spec.family) && (s.Some? ==> r == s) && (d.Some? ==> r == d)
                  && (spec.family.None? && s.None? && d.None? ==> r == Some(IPv4)))
  {
  }

  /** `AddRule`: the chains afterwards and whether it worked. */
  function RuleAdded(c: Chains, spec: RuleSpec, familyOf: FamilyOf, accepted: bool): (Chains, bool) {
    match InferFamily(spec, familyOf)
    case None => (c, false)
    case Some(f) =>
      var chain := c.Get(f);
      var after := if spec.position.Some? then Inserted(chain, spec.position.value, spec.rule)
        else Some(chain + [spec.rule]);
      if accepted && after.Some? then (c.Set(f, after.value), true) else (c, false)
  }

  /** A rule that goes in at a position has that number afterwards (0 counts as 1); one without a
      position comes last. Every other rule stays as and where it was, relative to the others. */
  lemma RuleAddedIs(c: Chains, spec: RuleSpec, familyOf: FamilyOf, accepted: bool)
    ensures var (after, ok) := RuleAdded(c, spec, familyOf, accepted);
            && (!ok ==> after == c)
            && (ok ==>
                  && InferFamily(spec, familyOf).Some?
                  && var f := InferFamily(spec, familyOf).value;
                     var chain, chain' := c.Get(f), after.Get(f);
                     var k: int := if spec.position.None? then |chain|
                       else if spec.position.value == 0 then 0 else spec.position.value - 1;
                     && 0 <= k < |chain'| == |chain| + 1 && chain'[k] == spec.rule
                     && chain'[..k] == chain[..k] && chain'[k + 1..] == chain[k..]
                     && forall g :: g != f ==> after.Get(g) == c.Get(g))
  {
  }

  /** Which deletions the kernel refuses, by family and number. */
  type Refused = (Family, nat) -> bool

  function RefusedIn(refused: Refused, f: Family): Refusals {
    (n: nat) => refused(f, n)
  }

  /** `DeleteRuleByComment` on both families, as far as their binaries are installed. */
  function Deleted(c: Chains, needle: string, available: set<Family>, refused: Refused): Chains {
    Chains(if IPv4 in available then Survivors(c.v4, Finds(needle), RefusedIn(refused, IPv4), 0) else c.v4,
           if IPv6 in available then Survivors(c.v6, Finds(needle), RefusedIn(refused, IPv6), 0) else c.v6)
  }

  // ---------- The DDoS rules

  /** What one application of the policy adds to one family's chain. */
  datatype Plan = Plan(family: Family, accepts: seq<Rule>, limits: seq<Rule>)

  function BuildOne(c: Chains, p: Plan, budget: nat): Chains {
    c.Set(p.family, Build(c.Get(p.family), Finds(BAN), p.accepts, p.limits, budget))
  }

  function Size(p: Plan): nat {
    |p.accepts| + |p.limits|
  }

  /** Plans are carried out in order until the additions the kernel accepts are used up. */
  function BuildAll(c: Chains, plans: seq<Plan>, budget: nat): Chains
    decreases |plans|
  {
    if plans == [] then c
    else
      var c' := BuildOne(c, plans[0], budget);
      if budget < Size(plans[0]) then c' else BuildAll(c', plans[1..], budget - Size(plans[0]))
  }

  function Additions(plans: seq<Plan>): nat {
    if plans == [] then 0 else Size(plans[0]) + Additions(plans[1..])
  }

  datatype Policy = Policy(enabled: bool, rateLimit: int, burst: int, connLimit: int, synRate: int, synBurst: int)

  function Prefix(serverID: string): string {
    DDOS + serverID + ":"
  }

  function AcceptRule(serverID: string, dest: string, port: nat, entry: string): Rule {
    Rule(Accept, entry, dest, port, NoOptions, Prefix(serverID) + "WL:" + Itoa(port) + ":" + entry)
  }

  function AcceptsAt(serverID: string, dest: string, port: nat, entries: seq<string>): (rules: seq<Rule>)
    ensures |rules| == |entries|
  {
    seq(|entries|, i requires 0 <= i < |entries| => AcceptRule(serverID, dest, port, entries[i]))
  }

  function AcceptRules(serverID: string, dest: string, ports: seq<nat>, entries: seq<string>): seq<Rule> {
    if ports == [] then []
    else AcceptsAt(serverID, dest, ports[0], entries) + AcceptRules(serverID, dest, ports[1..], entries)
  }

  function LimitRule(serverID: string, dest: string, port: nat, kind: string, options: Options): Rule {
    Rule(Drop, "", dest, port, options, Prefix(serverID) + kind + Itoa(port))
  }

  /** A burst is at least 1. */
  function RateLimit(rate: int, burst: int, synOnly: bool): Options {
    HashLimit(rate, if burst > 1 then burst else 1, synOnly)
  }

  function LimitsAt(serverID: string, dest: string, port: nat, p: Policy): seq<Rule> {
    (if p.connLimit > 0 then [LimitRule(serverID, dest, port, "CL", ConnLimit(p.connLimit))] else [])
    + (if p.rateLimit > 0 then [LimitRule(serverID, dest, port, "RL", RateLimit(p.rateLimit, p.burst, false))] else [])
    + (if p.synRate > 0 then [LimitRule(serverID, dest, port, "SYN", RateLimit(p.synRate, p.synBurst, true))] else [])
  }

  function LimitRules(serverID: string, dest: string, ports: seq<nat>, p: Policy): seq<Rule> {
    if ports == [] then []
    else LimitsAt(serverID, dest, ports[0], p) + LimitRules(serverID, dest, ports[1..], p)
  }

  /** What the host tells the policy: its families and addresses, the installed binaries, the
      server's ports. */
  datatype Host = Host(ip: string, localFamilies: set<Family>, available: set<Family>,
                       dest: Family -> string, ports: seq<nat>)

  function OfFamily(entries: seq<string>, f: Family, familyOf: FamilyOf): seq<string> {
    if entries == [] then []
    else (if familyOf(entries[0]) == Some(f) then [entries[0]] else []) + OfFamily(entries[1..], f, familyOf)
  }

  function FamiliesIn(entries: seq<string>, familyOf: FamilyOf): set<Family> {
    set f | f in {IPv4, IPv6} && exists e :: e in entries && familyOf(e) == Some(f)
  }

  function InOrder(families: set<Family>): seq<Family> {
    (if IPv4 in families then [IPv4] else []) + (if IPv6 in families then [IPv6] else [])
  }

  /** The families to write rules for: those of the host, of its address and of the entries; an
      entry whose binary is missing is an error. */
  function FamiliesForServer(host: Host, entries: seq<string>, familyOf: FamilyOf): Option<seq<Family>> {
    var explicit := FamiliesIn([host.ip] + entries, familyOf);
    if !(explicit <= host.available) then None
    else
      var families := host.localFamilies * host.available + explicit;
      Some(InOrder(if families != {} then families
                   else if IPv4 in host.available then {IPv4}
                   else if IPv6 in host.available then {IPv6} else {}))
  }

  /** The ports of the server's sites, else the usual two. */
  function Ports(host: Host): seq<nat> {
    if host.ports == [] then [80, 443] else host.ports
  }

  function PlanFor(serverID: string, p: Policy, host: Host, entries: seq<string>, familyOf: FamilyOf, f: Family): Plan {
    Plan(f, AcceptRules(serverID, host.dest(f), Ports(host), OfFamily(entries, f, familyOf)),
         LimitRules(serverID, host.dest(f), Ports(host), p))
  }

  function PlansFor(serverID: string, p: Policy, host: Host, entries: seq<string>, familyOf: FamilyOf,
                    families: seq<Family>): (plans: seq<Plan>)
    ensures |plans| == |families|
    ensures forall i :: 0 <= i < |plans| ==> plans[i] == PlanFor(serverID, p, host, entries, familyOf, families[i])
  {
    seq(|families|, i requires 0 <= i < |families| => PlanFor(serverID, p, host, entries, familyOf, families[i]))
  }

  /** `ApplyDDoSIptables`: the INPUT chains afterwards, and whether it reports success. Of the
      additions the kernel accepts the first `budget`; `entries` is the normalised whitelist. */
  function Applied(c: Chains, serverID: string, p: Policy, host: Host, entries: seq<string>, familyOf: FamilyOf,
                   refused: Refused, budget: nat): (Chains, bool)
  {
    if serverID == "" then (c, true)
    else
      var base := Deleted(c, Prefix(serverID), host.available, refused);
      if !p.enabled || TrimSpace(serverID) != "0" then (base, true)
      else match FamiliesForServer(host, entries, familyOf)
      case None => (base, false)
      case Some(families) =>
        var plans := PlansFor(serverID, p, host, entries, familyOf, families);
        (BuildAll(base, plans, budget), budget >= Additions(plans))
  }

  // ---------- The kinds of the rules the program writes

  /** Text that can stand in an address or a server number: it brings no marker along. */
  predicate Neutral(s: string) {
    'i' !in s && 'S' !in s
  }

  /** Without an `i` there is no ban marker. */
  lemma NoBanMark(comment: string)
    requires 'i' !in comment
    ensures !Contains(comment, BAN)
  {
    if Contains(comment, BAN) {
      assert BAN[13] == 'i';
      ContainsChar(comment, BAN, 'i');
    }
  }

  lemma AcceptRuleKind(serverID: string, dest: string, port: nat, entry: string)
    requires Neutral(serverID) && Neutral(entry)
    ensures KindOf(AcceptRule(serverID, dest, port, entry)) == Whitelist
    ensures Finds(Prefix(serverID))(AcceptRule(serverID, dest, port, entry))
  {
    var r := AcceptRule(serverID, dest, port, entry);
    ItoaIsDigits(port);
    NoBanMark(r.comment);
    PrefixIsContained(r.comment, DDOS);
    PrefixIsContained(r.comment, Prefix(serverID));
  }

  lemma LimitRuleKind(serverID: string, dest: string, port: nat, kind: string, options: Options)
    requires Neutral(serverID) && kind in ["CL", "RL", "SYN"]
    ensures KindOf(LimitRule(serverID, dest, port, kind, options)) == Limit
    ensures Finds(Prefix(serverID))(LimitRule(serverID, dest, port, kind, options))
  {
    var r := LimitRule(serverID, dest, port, kind, options);
    ItoaIsDigits(port);
    NoBanMark(r.comment);
    PrefixIsContained(r.comment, DDOS);
    PrefixIsContained(r.comment, Prefix(serverID));
  }

  lemma {:induction false} AcceptRulesKind(serverID: string, dest: string, ports: seq<nat>, entries: seq<string>)
    requires Neutral(serverID) && forall e :: e in entries ==> Neutral(e)
    ensures forall r :: r in AcceptRules(serverID, dest, ports, entries) ==>
              KindOf(r) == Whitelist && Finds(Prefix(serverID))(r)
    ensures |AcceptRules(serverID, dest, ports, entries)| == |ports| * |entries|
  {
    if ports != [] {
      AcceptRulesKind(serverID, dest, ports[1..], entries);
      var now := AcceptsAt(serverID, dest, ports[0], entries);
      forall r | r in now ensures KindOf(r) == Whitelist && Finds(Prefix(serverID))(r) {
        var i :| 0 <= i < |entries| && now[i] == r;
        assert entries[i] in entries;
        AcceptRuleKind(serverID, dest, ports[0], entries[i]);
      }
      OneMoreRow(|ports| - 1, |entries|);
    }
  }

  lemma OneMoreRow(n: nat, m: nat)
    ensures (n + 1) * m == n * m + m
  {
  }

  lemma {:induction false} LimitRulesKind(serverID: string, dest: string, ports: seq<nat>, p: Policy)
    requires Neutral(serverID)
    ensures forall r :: r in LimitRules(serverID, dest, ports, p) ==> KindOf(r) == Limit && Finds(Prefix(serverID))(r)
  {
    if ports != [] {
      LimitRulesKind(serverID, dest, ports[1..], p);
      forall r | r in LimitsAt(serverID, dest, ports[0], p) ensures KindOf(r) == Limit && Finds(Prefix(serverID))(r) {
        LimitRuleKind(serverID, dest, ports[0], "CL", ConnLimit(p.connLimit));
        LimitRuleKind(serverID, dest, ports[0], "RL", RateLimit(p.rateLimit, p.burst, false));
        LimitRuleKind(serverID, dest, ports[0], "SYN", RateLimit(p.synRate, p.synBurst, true));
      }
    }
  }
}
