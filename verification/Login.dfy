/** Login lockout: counters and deadlines per user and per client address. Times are nanoseconds;
    0 is Go's zero time. `Authenticate` is one atomic step. */
module Login {
  import opened Text

  const COOLDOWN: int := 60_000_000_000
  const BLOCK: int := 86_400_000_000_000
  const IP_MAX_FAILURES: nat := 3
  const USER_MAX_FAILURES: nat := 5

  datatype AttemptState = AttemptState(failures: nat, nextTry: int, blockedUntil: int)

  const NO_ATTEMPTS := AttemptState(0, 0, 0)

  function Lookup(m: map<string, AttemptState>, key: string): AttemptState {
    if key in m then m[key] else NO_ATTEMPTS
  }

  /** The state after one more failure. */
  function Failed(s: AttemptState, now: int, maxFailures: nat): AttemptState {
    AttemptState(s.failures + 1, now + COOLDOWN,
                 if s.failures + 1 >= maxFailures then now + BLOCK else s.blockedUntil)
  }

  /** No attempt before this time is looked at. */
  function Until(s: AttemptState): int {
    if s.blockedUntil > s.nextTry then s.blockedUntil else s.nextTry
  }

  /** What the user table and bcrypt would say. */
  datatype Credentials = UnknownUser | WrongPassword | Correct(id: int)

  /** An attempt for a user key (see `UserKey`) from a trimmed address. */
  datatype Attempt = Attempt(user: string, ip: string, now: int, credentials: Credentials)

  datatype AuthResult = Locked(wait: int) | Invalid(compared: bool) | Success(id: int)

  function UserKey(username: string): string {
    ToLower(TrimSpace(username))
  }

  datatype State = State(byUser: map<string, AttemptState>, byIP: map<string, AttemptState>)

  /** Time left until the later of the two deadlines; an address that is never blocked has none. */
  function WaitOf(st: State, canBlock: string -> bool, user: string, ip: string, now: int): int {
    var u := Later(Until(Lookup(st.byUser, user)), 0);
    var until := if canBlock(ip) then Later(Until(Lookup(st.byIP, ip)), u) else u;
    if until > now then until - now else 0
  }

  function FailureOf(st: State, canBlock: string -> bool, user: string, ip: string, now: int): State {
    State(st.byUser[user := Failed(Lookup(st.byUser, user), now, USER_MAX_FAILURES)],
          if canBlock(ip) then st.byIP[ip := Failed(Lookup(st.byIP, ip), now, IP_MAX_FAILURES)] else st.byIP)
  }

  /** One login attempt as a function of the state. */
  function Step(st: State, canBlock: string -> bool, a: Attempt): (State, AuthResult) {
    var failure := FailureOf(st, canBlock, a.user, a.ip, a.now);
    if WaitOf(st, canBlock, a.user, a.ip, a.now) > 0 then
      (failure, Locked(WaitOf(failure, canBlock, a.user, a.ip, a.now)))
    else
      match a.credentials
      case UnknownUser => (failure, Invalid(false))
      case WrongPassword => (failure, Invalid(true))
      case Correct(id) => (State(st.byUser - {a.user}, st.byIP - {a.ip}), Success(id))
  }

  class LoginService {
    var byIP: map<string, AttemptState>
    var byUser: map<string, AttemptState>
    const canBlock: string -> bool  // the address parses and is neither loopback nor unspecified

    ghost function Abstract(): State
      reads this
    {
      State(byUser, byIP)
    }

    constructor (canBlock: string -> bool)
      ensures Abstract() == State(map[], map[]) && this.canBlock == canBlock
    {
      byIP, byUser := map[], map[];
      this.canBlock := canBlock;
    }

    method Authenticate(rawUsername: string, rawIP: string, now: int, credentials: Credentials)
      returns (result: AuthResult)
      modifies this
      ensures (Abstract(), result)
              == Step(old(Abstract()), canBlock, Attempt(UserKey(rawUsername), TrimSpace(rawIP), now, credentials))
    {
      var username, ip := TrimSpace(rawUsername), TrimSpace(rawIP);
      var wait := LoginWait(username, ip, now);
      if wait > 0 {
        RecordLoginFailure(username, ip, now);
        wait := LoginWait(username, ip, now);
        return Locked(wait);
      }
      match credentials
      case UnknownUser =>
        RecordLoginFailure(username, ip, now);
        return Invalid(false);
      case WrongPassword =>
        RecordLoginFailure(username, ip, now);
        return Invalid(true);
      case Correct(id) =>
        byIP := byIP - {ip};
        byUser := byUser - {ToLower(username)};
        return Success(id);
    }

    method LoginWait(username: string, ip: string, now: int) returns (wait: int)
      ensures wait == WaitOf(Abstract(), canBlock, ToLower(username), ip, now)
    {
      var until := 0;
      var states := [Lookup(byUser, ToLower(username))];
      if canBlock(ip) {
        states := states + [Lookup(byIP, ip)];
      }
      for i := 0 to |states|
        invariant i == 0 ==> until == 0
        invariant i >= 1 ==> until == Later(Until(states[0]), 0)
                             || (i == 2 && until == Later(Until(states[1]), Later(Until(states[0]), 0)))
        invariant i == 2 ==> until == Later(Until(states[1]), Later(Until(states[0]), 0))
      {
        var candidate := states[i].nextTry;
        if states[i].blockedUntil > candidate {
          candidate := states[i].blockedUntil;
        }
        if candidate > until {
          until := candidate;
        }
      }
      return if until > now then until - now else 0;
    }

    method RecordLoginFailure(username: string, ip: string, now: int)
      modifies this
      ensures Abstract() == FailureOf(old(Abstract()), canBlock, ToLower(username), ip, now)
    {
      if canBlock(ip) {
        var ipState := Lookup(byIP, ip);
        ipState := ipState.(failures := ipState.failures + 1, nextTry := now + COOLDOWN);
        if ipState.failures >= IP_MAX_FAILURES {
          ipState := ipState.(blockedUntil := now + BLOCK);
        }
        byIP := byIP[ip := ipState];
      }
      var userKey := ToLower(username);
      var userState := Lookup(byUser, userKey);
      userState := userState.(failures := userState.failures + 1, nextTry := now + COOLDOWN);
      if userState.failures >= USER_MAX_FAILURES {
        userState := userState.(blockedUntil := now + BLOCK);
      }
      byUser := byUser[userKey := userState];
    }
  }

  function Later(a: int, b: int): int {
    if a > b then a else b
  }

  // ---------- The rate bound

  /** The two things an attempt is counted against. */
  datatype Side = ByUser | ByIP

  function Limit(side: Side): nat {
    if side == ByUser then USER_MAX_FAILURES else IP_MAX_FAILURES
  }

  function Tracked(st: State, side: Side, key: string): AttemptState {
    Lookup(if side == ByUser then st.byUser else st.byIP, key)
  }

  predicate CountsFor(a: Attempt, side: Side, key: string) {
    if side == ByUser then a.user == key else a.ip == key
  }

  function Run(st: State, canBlock: string -> bool, run: seq<Attempt>): (results: seq<AuthResult>)
    ensures |results| == |run|
    decreases |run|
  {
    if run == [] then []
    else
      var (st', result) := Step(st, canBlock, run[0]);
      [result] + Run(st', canBlock, run[1..])
  }

  predicate Compared(result: AuthResult) {
    result.Success? || result == Invalid(true)
  }

  /** Times at which a password was compared on behalf of the key. */
  function Comparisons(run: seq<Attempt>, results: seq<AuthResult>, side: Side, key: string): seq<int>
    requires |results| == |run|
  {
    if run == [] then []
    else
      (if CountsFor(run[0], side, key) && Compared(results[0]) then [run[0].now] else [])
      + Comparisons(run[1..], results[1..], side, key)
  }

  ghost predicate NoSuccess(run: seq<Attempt>, results: seq<AuthResult>, side: Side, key: string)
    requires |results| == |run|
  {
    forall i :: 0 <= i < |run| && CountsFor(run[i], side, key) ==> !results[i].Success?
  }

  /** The clock does not run backwards, from `start` on. */
  ghost predicate InOrder(run: seq<Attempt>, start: int) {
    && (forall i :: 0 <= i < |run| ==> start <= run[i].now)
    && (forall i, j :: 0 <= i < j < |run| ==> run[i].now <= run[j].now)
  }

  /** Deadlines lie at most one cooldown or block ahead of the clock, as they do in every state
      that attempts lead to. */
  ghost predicate Sane(s: AttemptState, now: int) {
    s.nextTry <= now + COOLDOWN && s.blockedUntil <= now + BLOCK
  }

  /** What one attempt does to the counter of a key, if it was no success for that key. */
  lemma StepForKey(st: State, canBlock: string -> bool, a: Attempt, side: Side, key: string)
    requires a.now >= 0 && (side == ByIP ==> canBlock(key))
    ensures var (st', result) := Step(st, canBlock, a);
            var s, s' := Tracked(st, side, key), Tracked(st', side, key);
            && (!CountsFor(a, side, key) ==> s' == s)
            && (CountsFor(a, side, key) && !result.Success? ==> s' == Failed(s, a.now, Limit(side)))
            && (CountsFor(a, side, key) && !result.Locked? ==> Until(s) <= a.now)
  {
  }

  /** Times in order, not before the state's deadline, and one block apart from the comparison on
      that brings the failure count to the limit. */
  ghost predicate Spaced(cs: seq<int>, s: AttemptState, limit: nat, start: int) {
    && (cs != [] ==> start <= cs[0] && Until(s) <= cs[0])
    && (forall k :: 0 <= k < |cs| - 1 ==> cs[k] <= cs[k + 1])
    && (forall k :: 0 <= k < |cs| - 1 && s.failures + k + 1 >= limit ==> cs[k] + BLOCK <= cs[k + 1])
  }

  /** A failed attempt never brings the deadline forward. */
  lemma FailedLater(s: AttemptState, start: int, now: int, limit: nat)
    requires Sane(s, start) && start <= now
    ensures Sane(Failed(s, now, limit), now) && Until(s) <= Until(Failed(s, now, limit))
  {
  }

  lemma SpacedAfterComparison(rest: seq<int>, s: AttemptState, limit: nat, start: int, now: int)
    requires start <= now && Until(s) <= now && Spaced(rest, Failed(s, now, limit), limit, now)
    ensures Spaced([now] + rest, s, limit, start)
  {
    var cs := [now] + rest;
    forall k | 0 <= k < |cs| - 1
      ensures cs[k] <= cs[k + 1] && (s.failures + k + 1 >= limit ==> cs[k] + BLOCK <= cs[k + 1])
    {
      if k > 0 {
        assert cs[k] == rest[k - 1] && cs[k + 1] == rest[k - 1 + 1];
      }
    }
  }

  /** One attempt in front of a spaced run. */
  lemma SpacedStep(rest: seq<int>, s: AttemptState, s': AttemptState, counts: bool, result: AuthResult,
                   limit: nat, start: int, now: int)
    requires Sane(s, start) && start <= now && Spaced(rest, s', limit, now)
    requires if counts then !result.Success? && s' == Failed(s, now, limit) else s' == s
    requires counts && !result.Locked? ==> Until(s) <= now
    ensures Spaced((if counts && Compared(result) then [now] else []) + rest, s, limit, start)
  {
    FailedLater(s, start, now, limit);
    if counts && Compared(result) {
      SpacedAfterComparison(rest, s, limit, start, now);
    } else {
      assert [] + rest == rest;
    }
  }

  lemma {:induction false} ComparisonsAreSpaced(st: State, canBlock: string -> bool, run: seq<Attempt>,
                                                side: Side, key: string, start: int)
    requires start >= 0 && (side == ByIP ==> canBlock(key)) && InOrder(run, start)
    requires Sane(Tracked(st, side, key), start)
    requires NoSuccess(run, Run(st, canBlock, run), side, key)
    ensures Spaced(Comparisons(run, Run(st, canBlock, run), side, key), Tracked(st, side, key), Limit(side), start)
    decreases |run|
  {
    if run != [] {
      var a, s := run[0], Tracked(st, side, key);
      var st', result, results := Step(st, canBlock, a).0, Step(st, canBlock, a).1, Run(st, canBlock, run);
      RunTail(st, canBlock, run);
      StepForKey(st, canBlock, a, side, key);
      FailedLater(s, start, a.now, Limit(side));
      NoSuccessTail(run, results, side, key);
      ComparisonsAreSpaced(st', canBlock, run[1..], side, key, a.now);
      SpacedStep(Comparisons(run[1..], results[1..], side, key), s, Tracked(st', side, key),
                 CountsFor(a, side, key), result, Limit(side), start, a.now);
    }
  }

  lemma RunTail(st: State, canBlock: string -> bool, run: seq<Attempt>)
    requires run != []
    ensures Run(st, canBlock, run)[0] == Step(st, canBlock, run[0]).1
    ensures Run(st, canBlock, run)[1..] == Run(Step(st, canBlock, run[0]).0, canBlock, run[1..])
  {
  }

  lemma NoSuccessTail(run: seq<Attempt>, results: seq<AuthResult>, side: Side, key: string)
    requires |results| == |run| > 0 && NoSuccess(run, results, side, key)
    ensures NoSuccess(run[1..], results[1..], side, key)
  {
  }

  function InWindow(cs: seq<int>, from: int, to: int): nat {
    if cs == [] then 0 else (if from <= cs[0] <= to then 1 else 0) + InWindow(cs[1..], from, to)
  }

  lemma {:induction false} NoneInWindow(cs: seq<int>, from: int, to: int)
    requires forall k :: 0 <= k < |cs| - 1 ==> cs[k] <= cs[k + 1]
    requires cs != [] ==> cs[0] > to
    ensures InWindow(cs, from, to) == 0
  {
    if |cs| > 1 {
      assert cs[0] <= cs[0 + 1];
      NoneInWindow(cs[1..], from, to);
    }
  }

  /** Times in order that keep a distance from index `loose` on: whatever of a window's times
      exceeds `loose + 1` in number has a whole distance each. */
  lemma {:induction false} SpacedWindow(cs: seq<int>, loose: nat, from: int, to: int)
    requires from <= to
    requires forall k :: 0 <= k < |cs| - 1 ==> cs[k] <= cs[k + 1]
    requires forall k :: loose <= k < |cs| - 1 ==> cs[k] + BLOCK <= cs[k + 1]
    ensures var m := InWindow(cs, from, to);
            && (m > loose ==> (m - loose - 1) * BLOCK <= to - from)
            && (m > loose == 0 && cs[0] >= from ==> (m - 1) * BLOCK <= to - cs[0])
    decreases |cs|
  {
    if cs != [] {
      var rest, less := cs[1..], if loose > 0 then loose - 1 else 0;
      forall k | 0 <= k < |rest| - 1 ensures rest[k] <= rest[k + 1] {
        assert cs[k + 1] <= cs[k + 1 + 1];
      }
      forall k | less <= k < |rest| - 1 ensures rest[k] + BLOCK <= rest[k + 1] {
        assert cs[k + 1] + BLOCK <= cs[k + 1 + 1];
      }
      SpacedWindow(rest, less, from, to);
      var m := InWindow(rest, from, to);
      if loose == 0 && from <= cs[0] <= to && m > 0 {
        assert cs[0] + BLOCK <= cs[0 + 1] == rest[0];
      }
      if cs[0] > to {
        NoneInWindow(cs, from, to);
      }
    }
  }

  lemma AtMostQuotient(n: int, total: nat)
    requires n * BLOCK <= total
    ensures n <= total / BLOCK
  {
  }

  /** The rate bound. In any sequential run without a successful login for the key, a window of
      length `to - from` holds at most 5 (user) or 3 (address) password comparisons, and one more
      for every whole 24 hours. */
  lemma RateBound(st: State, canBlock: string -> bool, run: seq<Attempt>, side: Side, key: string,
                  start: int, from: int, to: int)
    requires start >= 0 && (side == ByIP ==> canBlock(key)) && InOrder(run, start)
    requires Sane(Tracked(st, side, key), start)
    requires NoSuccess(run, Run(st, canBlock, run), side, key)
    requires from <= to
    ensures InWindow(Comparisons(run, Run(st, canBlock, run), side, key), from, to)
            <= Limit(side) + (to - from) / BLOCK
  {
    var cs := Comparisons(run, Run(st, canBlock, run), side, key);
    ComparisonsAreSpaced(st, canBlock, run, side, key, start);
    SpacedWindow(cs, Limit(side) - 1, from, to);
    var m := InWindow(cs, from, to);
    if m > Limit(side) - 1 {
      AtMostQuotient(m - Limit(side), to - from);
    }
  }

  /** Wrong passwords, one cooldown apart. */
  function Spread(user: string, ip: string, t: int, n: nat): (run: seq<Attempt>)
    ensures |run| == n
    decreases n
  {
    if n == 0 then [] else [Attempt(user, ip, t, WrongPassword)] + Spread(user, ip, t + COOLDOWN, n - 1)
  }

  /** Every result comes from a comparison that failed. */
  predicate AllCompared(results: seq<AuthResult>) {
    forall i :: 0 <= i < |results| ==> results[i] == Invalid(true)
  }

  /** The bound is reached: wrong passwords one minute apart are all compared, up to five for the
      user and three for an address that can be blocked. */
  lemma FiveAreCompared(st: State, canBlock: string -> bool, user: string, ip: string,
                        t: int, n: nat, from: int, to: int)
    requires t >= 0 && from <= t && t + n * COOLDOWN <= to + COOLDOWN
    requires Open(st, ByUser, user, t, n) && (canBlock(ip) ==> Open(st, ByIP, ip, t, n))
    ensures var run := Spread(user, ip, t, n);
            && InWindow(Comparisons(run, Run(st, canBlock, run), ByUser, user), from, to) == n
            && AllCompared(Run(st, canBlock, run))
  {
    SpreadIsCompared(st, canBlock, user, ip, t, n);
    AllInWindow(user, ip, t, n, Run(st, canBlock, Spread(user, ip, t, n)), from, to);
  }

  lemma {:induction false} SpreadIsCompared(st: State, canBlock: string -> bool, user: string, ip: string,
                                            t: int, n: nat)
    requires t >= 0 && Open(st, ByUser, user, t, n) && (canBlock(ip) ==> Open(st, ByIP, ip, t, n))
    ensures AllCompared(Run(st, canBlock, Spread(user, ip, t, n)))
    decreases n
  {
    if n > 0 {
      var st' := StaysOpen(st, canBlock, user, ip, t, n);
      SpreadIsCompared(st', canBlock, user, ip, t + COOLDOWN, n - 1);
      var run := Spread(user, ip, t, n);
      assert run[1..] == Spread(user, ip, t + COOLDOWN, n - 1);
      RunTail(st, canBlock, run);
    }
  }

  lemma {:induction false} AllInWindow(user: string, ip: string, t: int, n: nat, results: seq<AuthResult>,
                                       from: int, to: int)
    requires |results| == n && AllCompared(results) && from <= t && t + n * COOLDOWN <= to + COOLDOWN
    ensures InWindow(Comparisons(Spread(user, ip, t, n), results, ByUser, user), from, to) == n
    decreases n
  {
    if n > 0 {
      var later := Spread(user, ip, t + COOLDOWN, n - 1);
      AllInWindow(user, ip, t + COOLDOWN, n - 1, results[1..], from, to);
      assert Spread(user, ip, t, n)[1..] == later;
      InWindowCons(t, Comparisons(later, results[1..], ByUser, user), from, to);
    }
  }

  /** Nothing is waited for, and `n` more failures do not exceed the limit. */
  predicate Open(st: State, side: Side, key: string, t: int, n: nat) {
    var s := Tracked(st, side, key);
    n > 0 ==> Until(s) <= t && s.failures + n <= Limit(side)
  }

  lemma StaysOpen(st: State, canBlock: string -> bool, user: string, ip: string, t: int, n: nat) returns (st': State)
    requires n > 0 && t >= 0
    requires Open(st, ByUser, user, t, n) && (canBlock(ip) ==> Open(st, ByIP, ip, t, n))
    ensures Step(st, canBlock, Attempt(user, ip, t, WrongPassword)) == (st', Invalid(true))
    ensures Open(st', ByUser, user, t + COOLDOWN, n - 1)
    ensures canBlock(ip) ==> Open(st', ByIP, ip, t + COOLDOWN, n - 1)
  {
    st' := FailureOf(st, canBlock, user, ip, t);
  }

  lemma InWindowCons(t: int, rest: seq<int>, from: int, to: int)
    ensures InWindow([t] + rest, from, to) == (if from <= t <= to then 1 else 0) + InWindow(rest, from, to)
  {
    assert ([t] + rest)[1..] == rest;
  }

  // ---------- Outcomes

  /** A user is one user however the name's letters are cased and whatever blanks surround it. */
  lemma CasesAreOneUser(a: string, b: string, name: string)
    requires TrimSpace(a) == name && ToLower(TrimSpace(b)) == ToLower(name)
    ensures UserKey(a) == UserKey(b) == ToLower(name)
  {
  }

  /** The user's or the address's deadline lies ahead. */
  predicate Waits(st: State, canBlock: string -> bool, a: Attempt) {
    Until(Tracked(st, ByUser, a.user)) > a.now || (canBlock(a.ip) && Until(Tracked(st, ByIP, a.ip)) > a.now)
  }

  /** The outcome of an attempt: locked exactly while something is waited for, and then for the time
      that is left now, a minute at least; a success exactly for the right credentials otherwise. */
  lemma OutcomeIs(st: State, canBlock: string -> bool, a: Attempt)
    requires a.now >= 0
    ensures var (st', result) := Step(st, canBlock, a);
            && (result.Locked? <==> Waits(st, canBlock, a))
            && (result.Success? <==> !Waits(st, canBlock, a) && a.credentials.Correct?)
            && (result.Success? ==> result.id == a.credentials.id)
            && (result == Invalid(true) <==> !Waits(st, canBlock, a) && a.credentials == WrongPassword)
            && (result == Invalid(false) <==> !Waits(st, canBlock, a) && a.credentials == UnknownUser)
            && (result.Locked? ==>
                  var left := Until(Tracked(st', ByUser, a.user)) - a.now;
                  && result.wait >= left >= COOLDOWN
                  && (!canBlock(a.ip) ==> result.wait == left)
                  && (canBlock(a.ip) ==>
                        && result.wait >= Until(Tracked(st', ByIP, a.ip)) - a.now
                        && result.wait in {left, Until(Tracked(st', ByIP, a.ip)) - a.now}))
  {
  }

  /** Whatever fails, the next attempt for the user, or from an address that can be blocked, is
      refused for a minute, and from the limit on for a day. */
  lemma FailureLocks(st: State, canBlock: string -> bool, a: Attempt, b: Attempt, side: Side, key: string)
    requires a.now >= 0 && !Step(st, canBlock, a).1.Success? && (side == ByIP ==> canBlock(key))
    requires CountsFor(a, side, key) && CountsFor(b, side, key) && a.now <= b.now
    requires b.now < a.now + COOLDOWN
             || (Tracked(st, side, key).failures + 1 >= Limit(side) && b.now < a.now + BLOCK)
    ensures Step(Step(st, canBlock, a).0, canBlock, b).1.Locked?
  {
    StepForKey(st, canBlock, a, side, key);
  }

  /** A success forgets the failures of its user and its address, and nothing else. */
  lemma SuccessForgets(st: State, canBlock: string -> bool, a: Attempt, side: Side, key: string)
    requires Step(st, canBlock, a).1.Success?
    ensures Tracked(Step(st, canBlock, a).0, side, key)
            == if CountsFor(a, side, key) then NO_ATTEMPTS else Tracked(st, side, key)
  {
  }

  /** So after a success, five spaced wrong passwords are all compared again, or three from an
      address that can be blocked. */
  lemma SuccessStartsAgain(st: State, canBlock: string -> bool, a: Attempt, t: int)
    requires Step(st, canBlock, a).1.Success? && t >= a.now >= 0
    ensures var n: nat := if canBlock(a.ip) then IP_MAX_FAILURES else USER_MAX_FAILURES;
            var st' := Step(st, canBlock, a).0;
            AllCompared(Run(st', canBlock, Spread(a.user, a.ip, t, n)))
  {
    var n: nat := if canBlock(a.ip) then IP_MAX_FAILURES else USER_MAX_FAILURES;
    SuccessForgets(st, canBlock, a, ByUser, a.user);
    SuccessForgets(st, canBlock, a, ByIP, a.ip);
    FiveAreCompared(Step(st, canBlock, a).0, canBlock, a.user, a.ip, t, n, t, t + n * COOLDOWN);
  }
}
