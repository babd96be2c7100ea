/** Bounds on admitted reservations over whole runs of the rate limiter. */
module RateBounds {
  import opened Wrappers
  import opened RateLimiter
  import Seqs = Sequences

  datatype Event = Attempt(limits: seq<Limit>) | Cleared(keys: seq<Key>) | Wait(millis: nat)

  function Next(s: Store, e: Event): Store {
    match e
    case Attempt(limits) => Script(s, limits).0
    case Cleared(keys) => Clear(s, keys)
    case Wait(millis) => s.(now := s.now + millis)
  }

  function Run(s: Store, events: seq<Event>): Store
    decreases |events|
  {
    if events == [] then s else Run(Next(s, events[0]), events[1..])
  }

  /** Every call has distinct keys, and uses this policy for this key. */
  ghost predicate Uses(events: seq<Event>, key: Key, policy: Policy) {
    forall e | e in events && e.Attempt? ::
      DistinctKeys(e.limits) && forall i | 0 <= i < |e.limits| && e.limits[i].key == key :: e.limits[i].policy == policy
  }

  ghost predicate NeverClears(events: seq<Event>, key: Key) {
    forall e | e in events && e.Cleared? :: key !in e.keys
  }

  /** An admitted reservation on a key: when, and when the window it fell in began. */
  datatype Grant = Grant(time: nat, start: nat)

  predicate Grants(s: Store, e: Event, key: Key) {
    e.Attempt? && Mentions(e.limits, key) && Script(s, e.limits).1.Admitted?
  }

  /** The times at which reservations on a key were admitted, in order. */
  function AdmittedAt(s: Store, events: seq<Event>, key: Key): seq<nat>
    decreases |events|
  {
    if events == [] then []
    else (if Grants(s, events[0], key) then [s.now] else []) + AdmittedAt(Next(s, events[0]), events[1..], key)
  }

  // ---------- windows ----------

  ghost predicate WindowsOk(g: seq<Grant>, policy: Policy) {
    var width := policy.windowSeconds * 1000;
    && (forall i | 0 <= i < |g| :: g[i].start <= g[i].time < g[i].start + width)
    && (forall i, j | 0 <= i < j < |g| :: g[i].time <= g[j].time)
    && (forall i, j | 0 <= i < j < |g| :: g[i].start == g[j].start || g[i].start + width <= g[j].start)
    && (forall i, j | 0 <= i && j == i + policy.limit && j < |g| :: g[i].start + width <= g[j].start)
  }

  /** What the counter of the key says about the grants so far: a live counter's expiry is
      set, and its count is the number of grants in the last window. */
  ghost predicate Accounts(s: Store, key: Key, g: seq<Grant>, policy: Policy) {
    var width := policy.windowSeconds * 1000;
    && (forall i | 0 <= i < |g| :: g[i].time <= s.now)
    && if Alive(s, key) then
         && s.counters[key].expiresAt.Some?
         && s.counters[key].expiresAt.value >= width
         && 1 <= s.counters[key].count <= |g|
         && s.counters[key].count <= policy.limit
         && (forall i | |g| - s.counters[key].count <= i < |g| :: g[i].start + width == s.counters[key].expiresAt.value)
         && (forall i | 0 <= i < |g| - s.counters[key].count :: g[i].start + 2 * width <= s.counters[key].expiresAt.value)
       else forall i | 0 <= i < |g| :: g[i].start + width <= s.now
  }

  ghost predicate Inv(s: Store, key: Key, g: seq<Grant>, policy: Policy) {
    policy.limit > 0 && policy.windowSeconds > 0 && WindowsOk(g, policy) && Accounts(s, key, g, policy)
  }

  /** The window a reservation falls in began one width before the counter expires. */
  function NewGrant(s: Store, key: Key, policy: Policy): Grant {
    var width := policy.windowSeconds * 1000;
    if Alive(s, key) && s.counters[key].expiresAt.Some? && s.counters[key].expiresAt.value >= width
    then Grant(s.now, s.counters[key].expiresAt.value - width)
    else Grant(s.now, s.now)
  }

  /** A grant that continues the last window, or starts one after all others have ended. */
  lemma {:induction false} GrantKeepsWindows(g: seq<Grant>, n: Grant, count: nat, policy: Policy)
    requires WindowsOk(g, policy) && count <= |g| && count < policy.limit
    requires n.start <= n.time < n.start + policy.windowSeconds * 1000
    requires forall i | 0 <= i < |g| :: g[i].time <= n.time
    requires forall i | |g| - count <= i < |g| :: g[i].start == n.start
    requires forall i | 0 <= i < |g| - count :: g[i].start + policy.windowSeconds * 1000 <= n.start
    ensures WindowsOk(g + [n], policy)
  {
    var g' := g + [n];
    assert forall i | 0 <= i < |g| :: g'[i] == g[i];
    assert g'[|g|] == n;
    var width := policy.windowSeconds * 1000;
    forall i, j | 0 <= i < j < |g'| ensures g'[i].start == g'[j].start || g'[i].start + width <= g'[j].start {
      if j < |g| {
        assert g[i].start == g[j].start || g[i].start + width <= g[j].start;
      }
    }
    forall i, j | 0 <= i && j == i + policy.limit && j < |g'| ensures g'[i].start + width <= g'[j].start {
      if j < |g| {
        assert g[i].start + width <= g[j].start;
      }
    }
  }

  lemma {:induction false} ChargeKeepsWindows(s: Store, limit: Limit, g: seq<Grant>)
    requires Inv(s, limit.key, g, limit.policy) && !Saturated(s, limit)
    ensures Inv(Charge(s, limit), limit.key, g + [NewGrant(s, limit.key, limit.policy)], limit.policy)
  {
    var n, count := NewGrant(s, limit.key, limit.policy), if Alive(s, limit.key) then s.counters[limit.key].count else 0;
    if Alive(s, limit.key) {
      assert g[|g| - 1].start <= g[|g| - 1].time <= s.now;
    }
    GrantKeepsWindows(g, n, count, limit.policy);
    ChargeKeepsAccounts(s, limit, g, n);
  }

  lemma {:induction false} ChargeKeepsAccounts(s: Store, limit: Limit, g: seq<Grant>, n: Grant)
    requires Inv(s, limit.key, g, limit.policy) && !Saturated(s, limit) && n == NewGrant(s, limit.key, limit.policy)
    ensures Accounts(Charge(s, limit), limit.key, g + [n], limit.policy)
  {
    hide WindowsOk;
    var g' := g + [n];
    assert forall i | 0 <= i < |g| :: g'[i] == g[i];
    assert g'[|g|] == n;
  }

  lemma {:induction false} AccountsByCounter(s: Store, s': Store, key: Key, g: seq<Grant>, policy: Policy)
    requires Inv(s, key, g, policy) && s.now == s'.now
    requires key in s'.counters <==> key in s.counters
    requires key in s.counters ==> s'.counters[key] == s.counters[key]
    ensures Inv(s', key, g, policy)
  {
  }

  lemma {:induction false} AttemptKeepsWindows(s: Store, limits: seq<Limit>, key: Key, g: seq<Grant>, policy: Policy)
    requires Inv(s, key, g, policy) && DistinctKeys(limits)
    requires forall i | 0 <= i < |limits| && limits[i].key == key :: limits[i].policy == policy
    requires Script(s, limits).1.Admitted?
    ensures Inv(Script(s, limits).0, key, if Mentions(limits, key) then g + [NewGrant(s, key, policy)] else g, policy)
  {
    var s' := Script(s, limits).0;
    assert s' == ChargeAll(s, limits);
    ChargeAllAt(s, limits, key);
    if Mentions(limits, key) {
      var i :| 0 <= i < |limits| && limits[i].key == key;
      ChargeKeepsWindows(s, limits[i], g);
      AccountsByCounter(Charge(s, limits[i]), s', key, g + [NewGrant(s, key, policy)], policy);
    } else {
      AccountsByCounter(s, s', key, g, policy);
    }
  }

  lemma {:induction false} NextKeepsWindows(s: Store, e: Event, key: Key, g: seq<Grant>, policy: Policy)
    requires Inv(s, key, g, policy) && Uses([e], key, policy) && NeverClears([e], key)
    ensures Inv(Next(s, e), key, if Grants(s, e, key) then g + [NewGrant(s, key, policy)] else g, policy)
  {
    hide WindowsOk;
    hide Accounts;
    hide NewGrant;
    assert e in [e];
    match e {
      case Attempt(limits) =>
        if Script(s, limits).1.Admitted? {
          AttemptKeepsWindows(s, limits, key, g, policy);
        }
      case Cleared(keys) =>
        AccountsByCounter(s, Next(s, e), key, g, policy);
      case Wait(millis) =>
        WaitKeepsWindows(s, millis, key, g, policy);
    }
  }

  lemma {:induction false} WaitKeepsWindows(s: Store, millis: nat, key: Key, g: seq<Grant>, policy: Policy)
    requires Inv(s, key, g, policy)
    ensures Inv(s.(now := s.now + millis), key, g, policy)
  {
    hide WindowsOk;
  }

  /** The grants g' are g and one more for each of these times. */
  ghost predicate Extended(g: seq<Grant>, times: seq<nat>, g': seq<Grant>) {
    && |g'| == |g| + |times|
    && (forall i | 0 <= i < |g| :: g'[i] == g[i])
    && forall i | 0 <= i < |times| :: g'[|g| + i].time == times[i]
  }

  /** A run extends the grants by some whose times are the admission times. */
  lemma {:induction false} RunKeepsWindows(s: Store, events: seq<Event>, key: Key, g: seq<Grant>, policy: Policy)
    returns (g': seq<Grant>)
    requires Inv(s, key, g, policy) && Uses(events, key, policy) && NeverClears(events, key)
    ensures Inv(Run(s, events), key, g', policy)
    ensures Extended(g, AdmittedAt(s, events, key), g')
    decreases |events|
  {
    hide Inv;
    hide Grants;
    hide Next;
    hide NewGrant;
    hide Extended;
    hide Uses;
    hide NeverClears;
    if events == [] {
      g' := g;
      NotExtended(g);
    } else {
      var e := events[0];
      UsesHead(events, key, policy);
      UsesTail(events, key, policy);
      NextKeepsWindows(s, e, key, g, policy);
      if Grants(s, e, key) {
        g' := RunKeepsWindows(Next(s, e), events[1..], key, g + [NewGrant(s, key, policy)], policy);
        ExtendedByOne(s, g, NewGrant(s, key, policy), AdmittedAt(Next(s, e), events[1..], key), g');
        NewGrantIsNow(s, key, policy);
      } else {
        g' := RunKeepsWindows(Next(s, e), events[1..], key, g, policy);
        Seqs.Units(AdmittedAt(Next(s, e), events[1..], key));
      }
    }
  }

  lemma {:induction false} NotExtended(g: seq<Grant>)
    ensures Extended(g, [], g)
  {
  }

  lemma {:induction false} ExtendedByOne(s: Store, g: seq<Grant>, n: Grant, times: seq<nat>, g': seq<Grant>)
    requires Extended(g + [n], times, g')
    ensures Extended(g, [n.time] + times, g')
  {
    var more, all := g + [n], [n.time] + times;
    assert forall i | 0 < i < |all| :: all[i] == times[i - 1] && g'[|g| + i] == g'[|more| + (i - 1)];
    assert g'[|g|] == more[|g|] == n;
  }

  lemma {:induction false} NewGrantIsNow(s: Store, key: Key, policy: Policy)
    ensures NewGrant(s, key, policy).time == s.now
  {
  }

  lemma {:induction false} UsesHead(events: seq<Event>, key: Key, policy: Policy)
    requires events != [] && Uses(events, key, policy) && NeverClears(events, key)
    ensures Uses([events[0]], key, policy) && NeverClears([events[0]], key)
  {
    assert events[0] in events;
  }

  lemma {:induction false} UsesTail(events: seq<Event>, key: Key, policy: Policy)
    requires events != [] && Uses(events, key, policy) && NeverClears(events, key)
    ensures Uses(events[1..], key, policy) && NeverClears(events[1..], key)
  {
  }

  lemma OnceMore(m: nat, x: nat)
    requires m > 0
    ensures m * x == (m - 1) * x + x && (m - 1) * x >= 0
  {
  }

  /** m full limits later, at least m windows have passed. */
  lemma {:induction false} WindowsPass(g: seq<Grant>, policy: Policy, i: nat, m: nat)
    requires WindowsOk(g, policy) && i + m * policy.limit < |g|
    ensures g[i].start + m * (policy.windowSeconds * 1000) <= g[i + m * policy.limit].start
  {
    if m > 0 {
      var width := policy.windowSeconds * 1000;
      OnceMore(m, policy.limit);
      OnceMore(m, width);
      var j := i + (m - 1) * policy.limit;
      WindowsPass(g, policy, i, m - 1);
      assert g[j].start + width <= g[j + policy.limit].start;
    }
  }

  // ---------- counting ----------

  function CountIn(times: seq<nat>, from: nat, to: nat): nat {
    if times == [] then 0
    else (if from <= times[0] <= to then 1 else 0) + CountIn(times[1..], from, to)
  }

  ghost predicate Sorted(times: seq<nat>) {
    forall i, j | 0 <= i < j < |times| :: times[i] <= times[j]
  }

  /** In a sorted list, as many consecutive entries lie in the interval as are counted. */
  lemma {:induction false} CountedAreConsecutive(times: seq<nat>, from: nat, to: nat) returns (i: nat)
    requires Sorted(times)
    ensures i + CountIn(times, from, to) <= |times|
    ensures forall j | i <= j < i + CountIn(times, from, to) :: from <= times[j] <= to
  {
    if times == [] {
      i := 0;
    } else {
      var n := CountIn(times[1..], from, to);
      i := CountedAreConsecutive(times[1..], from, to);
      if !(from <= times[0] <= to) {
        i := i + 1;
      } else if n == 0 {
        i := 0;
      } else {
        assert times[1..][i + n - 1] <= to;
        forall j | i <= j < i + n + 1
          ensures from <= times[j] <= to
        {
        }
      }
    }
  }

  // ---------- the bound ----------

  /** A full run from an empty store. */
  ghost predicate FromEmpty(s: Store, events: seq<Event>, key: Key, policy: Policy) {
    && s.counters == map[]
    && policy.limit > 0 && policy.windowSeconds > 0
    && Uses(events, key, policy) && NeverClears(events, key)
  }

  lemma {:induction false} RunGrants(s: Store, events: seq<Event>, key: Key, policy: Policy) returns (g: seq<Grant>)
    requires FromEmpty(s, events, key, policy)
    ensures var times := AdmittedAt(s, events, key);
            && WindowsOk(g, policy) && Sorted(times)
            && |g| == |times| && forall i | 0 <= i < |times| :: g[i].time == times[i]
  {
    hide Uses;
    hide NeverClears;
    var times := AdmittedAt(s, events, key);
    g := RunKeepsWindows(s, events, key, [], policy);
    assert forall i | 0 <= i < |times| :: g[0 + i].time == times[i];
  }

  /** Any closed interval of length k windows contains at most (k + 1) * limit admitted
      reservations on a key that is never cleared. */
  lemma {:induction false} RateIsBounded(s: Store, events: seq<Event>, key: Key, policy: Policy, from: nat, k: nat)
    requires FromEmpty(s, events, key, policy)
    ensures CountIn(AdmittedAt(s, events, key), from, from + k * (policy.windowSeconds * 1000)) <= (k + 1) * policy.limit
  {
    hide FromEmpty;
    hide WindowsOk;
    hide Sorted;
    hide AdmittedAt;
    hide CountIn;
    var g := RunGrants(s, events, key, policy);
    GrantsAreSpread(g, AdmittedAt(s, events, key), policy, from, k);
  }

  /** The times at which callers were told that a request on a key may pass. */
  function AllowedAt(s: Store, events: seq<Event>, key: Key): seq<nat>
    decreases |events|
  {
    if events == [] then []
    else
      var e := events[0];
      (if e.Attempt? && Mentions(e.limits, key) && Decide(true, true, s, e.limits).1.allowed then [s.now] else [])
      + AllowedAt(if e.Attempt? then Decide(true, true, s, e.limits).0 else Next(s, e), events[1..], key)
  }

  lemma {:induction false} AllowedIsAdmitted(s: Store, events: seq<Event>, key: Key)
    ensures AllowedAt(s, events, key) == AdmittedAt(s, events, key)
    decreases |events|
  {
    hide FirstSaturated;
    hide Saturated;
    hide ChargeAll;
    hide Clear;
    if events != [] {
      AllowedIsAdmitted(Next(s, events[0]), events[1..], key);
      if events[0].Attempt? {
        assert events[0].limits == [] ==> Script(s, []) == (s, Admitted) by { NothingToCharge(s); }
      }
    }
  }

  lemma NothingToCharge(s: Store)
    ensures Script(s, []) == (s, Admitted)
  {
  }

  /** So whoever follows the decisions of a limiter that is on and in reach lets through at most that
      many requests. */
  lemma {:induction false} AllowedIsBounded(s: Store, events: seq<Event>, key: Key, policy: Policy, from: nat, k: nat)
    requires FromEmpty(s, events, key, policy)
    ensures CountIn(AllowedAt(s, events, key), from, from + k * (policy.windowSeconds * 1000)) <= (k + 1) * policy.limit
  {
    hide FromEmpty;
    hide AllowedAt;
    hide AdmittedAt;
    AllowedIsAdmitted(s, events, key);
    RateIsBounded(s, events, key, policy, from, k);
  }

  /** Grants k + 1 limits apart are more than k windows apart. */
  lemma {:induction false} FarGrants(g: seq<Grant>, policy: Policy, i: nat, k: nat)
    requires WindowsOk(g, policy) && i + (k + 1) * policy.limit < |g|
    ensures g[i].time + k * (policy.windowSeconds * 1000) < g[i + (k + 1) * policy.limit].time
  {
    var width, last := policy.windowSeconds * 1000, i + (k + 1) * policy.limit;
    WindowsPass(g, policy, i, k + 1);
    assert (k + 1) * width == k * width + width;
    assert g[i].time < g[i].start + width && g[last].start <= g[last].time;
  }

  /** An interval that holds more entries of a sorted list is at least as long as some entries
      that far apart. */
  lemma {:induction false} ClosePair(times: seq<nat>, from: nat, to: nat, most: nat) returns (i: nat)
    requires Sorted(times) && CountIn(times, from, to) > most
    ensures i + most < |times| && from <= times[i] && times[i + most] <= to
  {
    i := CountedAreConsecutive(times, from, to);
  }

  lemma {:induction false} GrantsAreSpread(g: seq<Grant>, times: seq<nat>, policy: Policy, from: nat, k: nat)
    requires WindowsOk(g, policy) && Sorted(times)
    requires |g| == |times| && forall i | 0 <= i < |times| :: g[i].time == times[i]
    ensures CountIn(times, from, from + k * (policy.windowSeconds * 1000)) <= (k + 1) * policy.limit
  {
    hide WindowsOk;
    hide CountIn;
    hide Sorted;
    var length, most := k * (policy.windowSeconds * 1000), (k + 1) * policy.limit;
    if CountIn(times, from, from + length) > most {
      var i := ClosePair(times, from, from + length, most);
      FarGrants(g, policy, i, k);
      assert false;
    }
  }

  /** In every such run a live counter has an expiry, so retries are exact, and a denial's
      retry is at most the window. */
  lemma {:induction false} CountersAlwaysExpire(s: Store, events: seq<Event>, limit: Limit)
    requires FromEmpty(s, events, limit.key, limit.policy)
    ensures var end := Run(s, events);
            && (Alive(end, limit.key) ==> Pttl(end, limit.key) >= 0)
            && Count(end, limit.key) <= limit.policy.limit
            && Retry(end, limit) <= limit.policy.windowSeconds
  {
    var g := RunKeepsWindows(s, events, limit.key, [], limit.policy);
    var end := Run(s, events);
    if Alive(end, limit.key) {
      var last := g[|g| - 1];
      assert last.start + limit.policy.windowSeconds * 1000 == end.counters[limit.key].expiresAt.value;
    }
  }

  /** The counter after so many attempts at time 0. */
  function Filled(limit: Limit, n: nat): Store {
    Store(if n == 0 then map[] else map[limit.key := Counter(n, Some(limit.policy.windowSeconds * 1000))], 0)
  }

  function Attempts(limit: Limit, n: nat): seq<Event> {
    seq(n, _ => Attempt([limit]))
  }

  lemma {:induction false} AttemptsFill(limit: Limit, k: nat, n: nat)
    requires k + n <= limit.policy.limit && limit.policy.windowSeconds > 0
    ensures Run(Filled(limit, k), Attempts(limit, n)) == Filled(limit, k + n)
    decreases n
  {
    if n > 0 {
      var events := Attempts(limit, n);
      assert events[0] == Attempt([limit]) && events[1..] == Attempts(limit, n - 1);
      OneMoreAttempt(limit, k);
      AttemptsFill(limit, k + 1, n - 1);
    }
  }

  lemma {:induction false} OneMoreAttempt(limit: Limit, k: nat)
    requires k < limit.policy.limit && limit.policy.windowSeconds > 0
    ensures Next(Filled(limit, k), Attempt([limit])) == Filled(limit, k + 1)
  {
    var s := Filled(limit, k);
    assert FirstSaturated(s, [limit]) == 1;
    assert [limit][1..] == [];
    assert ChargeAll(s, [limit]) == Charge(s, limit);
  }

  /** Whoever waits as long as advertised is always admitted, in every run, exactly for policies
      whose window is at most an hour. */
  lemma {:induction false} AdvertisedDelayAlwaysSufficesIff(limit: Limit)
    requires limit.policy.limit > 0 && limit.policy.windowSeconds > 0
    ensures (forall s, events | FromEmpty(s, events, limit.key, limit.policy) && Saturated(Run(s, events), limit) ::
               AdmitsAfter(Run(s, events), limit, BoundedRetryAfter(Retry(Run(s, events), limit))))
            <==> limit.policy.windowSeconds <= MAX_RETRY_AFTER_SECONDS
  {
    hide Uses;
    if limit.policy.windowSeconds <= MAX_RETRY_AFTER_SECONDS {
      forall s, events | FromEmpty(s, events, limit.key, limit.policy) && Saturated(Run(s, events), limit)
        ensures AdmitsAfter(Run(s, events), limit, BoundedRetryAfter(Retry(Run(s, events), limit)))
      {
        CountersAlwaysExpire(s, events, limit);
      }
    } else {
      var s, events := Filled(limit, 0), Attempts(limit, limit.policy.limit);
      AttemptsFill(limit, 0, limit.policy.limit);
      assert FromEmpty(s, events, limit.key, limit.policy) by { AttemptsUse(limit, limit.policy.limit); }
      assert !AdmitsAfter(Run(s, events), limit, BoundedRetryAfter(Retry(Run(s, events), limit)));
    }
  }

  lemma {:induction false} AttemptsUse(limit: Limit, n: nat)
    ensures Uses(Attempts(limit, n), limit.key, limit.policy) && NeverClears(Attempts(limit, n), limit.key)
  {
  }

  // ---------- sign-in ----------

  /** What sign-in traffic does: attempts and clearings of the three sign-in keys. */
  ghost predicate SigninTraffic(events: seq<Event>, settings: Settings) {
    forall e | e in events ::
      match e
      case Attempt(limits) => exists email, host :: limits == SigninLimits(settings, email, host)
      case Cleared(keys) => exists email, host :: keys == SigninClearedKeys(email, host)
      case Wait(_) => true
  }

  /** The bound on a client address survives the clearings that follow successful
      sign-ins. */
  lemma {:induction false} AddressBoundSurvivesClears(
    s: Store, events: seq<Event>, settings: Settings, host: string, from: nat, k: nat)
    requires s.counters == map[] && SigninTraffic(events, settings)
    requires settings.signinIp.limit > 0 && settings.signinIp.windowSeconds > 0
    ensures CountIn(AdmittedAt(s, events, Key("signin_ip", host)), from, from + k * (settings.signinIp.windowSeconds * 1000))
            <= (k + 1) * settings.signinIp.limit
  {
    RateIsBounded(s, events, Key("signin_ip", host), settings.signinIp, from, k);
  }

  /** Successful sign-ins to one account, each from another address. */
  function Signins(settings: Settings, email: string, hosts: seq<string>): seq<Event> {
    if hosts == [] then []
    else [Attempt(SigninLimits(settings, email, hosts[0])), Cleared(SigninClearedKeys(email, hosts[0]))]
         + Signins(settings, email, hosts[1..])
  }

  /** Nothing counts against the account, nor against the addresses still to come. */
  ghost predicate Open(s: Store, email: string, hosts: seq<string>) {
    && Count(s, Key("signin_account", email)) == 0
    && forall h | h in hosts ::
         Count(s, Key("signin_ip", h)) == 0 && Count(s, Key("signin_combined", email + "\0" + h)) == 0
  }

  predicate Positive(settings: Settings) {
    settings.signinAccount.limit > 0 && settings.signinIp.limit > 0 && settings.signinCombined.limit > 0
  }

  predicate AllDiffer(hosts: seq<string>) {
    forall i, j | 0 <= i < j < |hosts| :: hosts[i] != hosts[j]
  }

  lemma {:induction false} CombinedDiffer(email: string, h: string, k: string)
    requires h != k
    ensures email + "\0" + h != email + "\0" + k
  {
    assert (email + "\0" + h)[|email| + 1..] == h && (email + "\0" + k)[|email| + 1..] == k;
  }

  lemma {:induction false} SigninIsAdmitted(s: Store, settings: Settings, email: string, hosts: seq<string>)
    requires Positive(settings) && Open(s, email, hosts) && hosts != []
    ensures Script(s, SigninLimits(settings, email, hosts[0])).1.Admitted?
    ensures Mentions(SigninLimits(settings, email, hosts[0]), Key("signin_account", email))
  {
    var limits := SigninLimits(settings, email, hosts[0]);
    assert limits[0].key == Key("signin_account", email);
    forall i | 0 <= i < |limits| ensures !Saturated(s, limits[i]) {
      assert i == 0 || i == 1 || i == 2;
    }
  }

  lemma {:induction false} SigninLeavesOpen(s: Store, settings: Settings, email: string, hosts: seq<string>)
    requires Positive(settings) && Open(s, email, hosts) && hosts != [] && AllDiffer(hosts)
    ensures var s' := Next(Next(s, Attempt(SigninLimits(settings, email, hosts[0]))), Cleared(SigninClearedKeys(email, hosts[0])));
            Open(s', email, hosts[1..]) && s'.now == s.now
  {
    var limits := SigninLimits(settings, email, hosts[0]);
    SigninIsAdmitted(s, settings, email, hosts);
    ChargeAllAt(s, limits, Key("signin_account", email));
    var s' := Clear(Next(s, Attempt(limits)), SigninClearedKeys(email, hosts[0]));
    forall h | h in hosts[1..]
      ensures Count(s', Key("signin_ip", h)) == 0 && Count(s', Key("signin_combined", email + "\0" + h)) == 0
    {
      var i :| 0 <= i < |hosts[1..]| && hosts[1..][i] == h;
      assert h == hosts[i + 1] != hosts[0];
      CombinedDiffer(email, h, hosts[0]);
      var ip, combined := Key("signin_ip", h), Key("signin_combined", email + "\0" + h);
      ChargeAllAt(s, limits, ip);
      ChargeAllAt(s, limits, combined);
      assert !Mentions(limits, ip) && !Mentions(limits, combined);
    }
  }

  lemma {:induction false} AdmittedThenCleared(s: Store, attempt: Event, cleared: Event, rest: seq<Event>, key: Key)
    requires Grants(s, attempt, key) && cleared.Cleared?
    ensures AdmittedAt(s, [attempt, cleared] + rest, key) == [s.now] + AdmittedAt(Next(Next(s, attempt), cleared), rest, key)
  {
    hide Next;
    var events := [attempt, cleared] + rest;
    var later := AdmittedAt(Next(Next(s, attempt), cleared), rest, key);
    assert events[1..] == [cleared] + rest && events[1..][1..] == rest;
    assert !Grants(Next(s, attempt), cleared, key);
    Seqs.Units(later);
  }

  lemma {:induction false} SigninsAreAdmitted(s: Store, settings: Settings, email: string, hosts: seq<string>)
    requires Positive(settings) && Open(s, email, hosts) && AllDiffer(hosts)
    ensures CountIn(AdmittedAt(s, Signins(settings, email, hosts), Key("signin_account", email)), s.now, s.now) == |hosts|
    decreases |hosts|
  {
    hide Open;
    hide Next;
    hide AdmittedAt;
    hide SigninLimits;
    hide SigninClearedKeys;
    var key := Key("signin_account", email);
    if hosts == [] {
      NoneAdmitted(s, key);
    } else {
      var attempt, cleared := Attempt(SigninLimits(settings, email, hosts[0])), Cleared(SigninClearedKeys(email, hosts[0]));
      var s', rest := Next(Next(s, attempt), cleared), Signins(settings, email, hosts[1..]);
      SigninIsAdmitted(s, settings, email, hosts);
      SigninLeavesOpen(s, settings, email, hosts);
      SigninsAreAdmitted(s', settings, email, hosts[1..]);
      AdmittedThenCleared(s, attempt, cleared, rest, key);
      Seqs.HeadTail(s.now, AdmittedAt(s', rest, key));
    }
  }

  lemma NoneAdmitted(s: Store, key: Key)
    ensures AdmittedAt(s, [], key) == []
  {
  }

  lemma {:induction false} SigninsAreTraffic(settings: Settings, email: string, hosts: seq<string>)
    ensures SigninTraffic(Signins(settings, email, hosts), settings)
  {
    if hosts != [] {
      SigninsAreTraffic(settings, email, hosts[1..]);
      var attempt, cleared := Attempt(SigninLimits(settings, email, hosts[0])), Cleared(SigninClearedKeys(email, hosts[0]));
      var events := Signins(settings, email, hosts);
      forall e | e in events ensures e in Signins(settings, email, hosts[1..]) || e == attempt || e == cleared {}
    }
  }

  /** The bound on an account does not: whatever its limit, successful sign-ins from different
      addresses are all admitted at one instant, however many addresses there are. */
  lemma {:induction false} AccountBoundFailsWithClears(settings: Settings, email: string, hosts: seq<string>)
    requires Positive(settings) && AllDiffer(hosts)
    ensures var events := Signins(settings, email, hosts);
            && SigninTraffic(events, settings)
            && CountIn(AdmittedAt(Store(map[], 0), events, Key("signin_account", email)), 0, 0) == |hosts|
  {
    SigninsAreTraffic(settings, email, hosts);
    SigninsAreAdmitted(Store(map[], 0), settings, email, hosts);
  }
}
