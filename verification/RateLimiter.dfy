/** The authentication rate limiter: an atomic script over fixed-window counters with
    expiry, and the decisions built on it.  Times are in milliseconds; a counter is gone
    from its expiry instant on. */
module RateLimiter {
  import opened Wrappers

  const MAX_RETRY_AFTER_SECONDS: nat := 3600

  /** The keyed digest is treated as injective, so a key is what it is made of. */
  datatype Key = Key(category: string, identifier: string)

  datatype Policy = Policy(limit: nat, windowSeconds: nat)

  datatype Limit = Limit(key: Key, policy: Policy)

  datatype Counter = Counter(count: nat, expiresAt: Option<nat>)

  datatype Store = Store(counters: map<Key, Counter>, now: nat)

  predicate Alive(s: Store, key: Key) {
    key in s.counters && (s.counters[key].expiresAt.None? || s.now < s.counters[key].expiresAt.value)
  }

  function Count(s: Store, key: Key): nat {
    if Alive(s, key) then s.counters[key].count else 0
  }

  /** -2 for no key, -1 for no expiry, else the remaining milliseconds. */
  function Pttl(s: Store, key: Key): int {
    if !Alive(s, key) then -2
    else if s.counters[key].expiresAt.None? then -1
    else s.counters[key].expiresAt.value - s.now
  }

  predicate Saturated(s: Store, limit: Limit) {
    Count(s, limit.key) >= limit.policy.limit
  }

  function CeilSeconds(millis: nat): nat {
    (millis + 999) / 1000
  }

  function Retry(s: Store, limit: Limit): nat {
    var pttl := Pttl(s, limit.key);
    var millis := if pttl < 0 then limit.policy.windowSeconds * 1000 else pttl;
    if CeilSeconds(millis) < 1 then 1 else CeilSeconds(millis)
  }

  datatype Reply = Admitted | Denied(retry: nat, index: nat)

  /** Increment, and give the counter a lifetime if it is new or has none. */
  function Charge(s: Store, limit: Limit): Store {
    var expiry := Some(s.now + limit.policy.windowSeconds * 1000);
    var counter :=
      if !Alive(s, limit.key) then Counter(1, expiry)
      else
        var held := s.counters[limit.key];
        if held.count + 1 == 1 || held.expiresAt.None? then Counter(held.count + 1, expiry)
        else Counter(held.count + 1, held.expiresAt);
    s.(counters := s.counters[limit.key := counter])
  }

  function ChargeAll(s: Store, limits: seq<Limit>): Store
    decreases |limits|
  {
    if limits == [] then s else ChargeAll(Charge(s, limits[0]), limits[1..])
  }

  /** The position of the first saturated limit, |limits| if there is none. */
  function FirstSaturated(s: Store, limits: seq<Limit>): (i: nat)
    ensures i <= |limits|
    ensures forall j | 0 <= j < i :: !Saturated(s, limits[j])
    ensures i < |limits| ==> Saturated(s, limits[i])
  {
    if limits == [] || Saturated(s, limits[0]) then 0 else 1 + FirstSaturated(s, limits[1..])
  }

  function Script(s: Store, limits: seq<Limit>): (Store, Reply) {
    var i := FirstSaturated(s, limits);
    if i < |limits| then (s, Denied(Retry(s, limits[i]), i)) else (ChargeAll(s, limits), Admitted)
  }

  predicate DistinctKeys(limits: seq<Limit>) {
    forall i, j | 0 <= i < j < |limits| :: limits[i].key != limits[j].key
  }

  predicate Mentions(limits: seq<Limit>, key: Key) {
    exists i | 0 <= i < |limits| :: limits[i].key == key
  }

  // ---------- denials ----------

  /** The key would admit a reservation `seconds` from now if nobody touched it. */
  predicate AdmitsAfter(s: Store, limit: Limit, seconds: nat) {
    !Saturated(s.(now := s.now + seconds * 1000), limit)
  }

  /** A denial changes nothing, names the first saturated key, and its retry is the least
      number of whole seconds after which that key admits, provided the counter has an
      expiry; without one the key never admits again. */
  lemma DenialIsExact(s: Store, limits: seq<Limit>, seconds: nat)
    requires Script(s, limits).1.Denied?
    requires forall i | 0 <= i < |limits| :: limits[i].policy.limit > 0
    ensures var (s', reply) := Script(s, limits);
            && s' == s
            && reply.index < |limits|
            && Saturated(s, limits[reply.index])
            && (forall j | 0 <= j < reply.index :: !Saturated(s, limits[j]))
            && reply.retry >= 1
            && (AdmitsAfter(s, limits[reply.index], seconds)
                <==> Pttl(s, limits[reply.index].key) >= 0 && seconds >= reply.retry)
  {
  }

  function BoundedRetryAfter(seconds: int): (r: nat)
    ensures 1 <= r <= MAX_RETRY_AFTER_SECONDS
    ensures r == seconds <==> 1 <= seconds <= MAX_RETRY_AFTER_SECONDS
  {
    var positive := if seconds == 0 then 1 else seconds;
    var capped := if positive < MAX_RETRY_AFTER_SECONDS then positive else MAX_RETRY_AFTER_SECONDS;
    if capped < 1 then 1 else capped
  }

  /** The advertised delay is long enough exactly when the counter has at most an hour to live. */
  lemma AdvertisedDelaySufficesIff(s: Store, limits: seq<Limit>)
    requires Script(s, limits).1.Denied?
    requires forall i | 0 <= i < |limits| :: limits[i].policy.limit > 0
    requires Pttl(s, limits[Script(s, limits).1.index].key) >= 0
    ensures var reply := Script(s, limits).1;
            AdmitsAfter(s, limits[reply.index], BoundedRetryAfter(reply.retry))
            <==> Pttl(s, limits[reply.index].key) <= MAX_RETRY_AFTER_SECONDS * 1000
  {
    DenialIsExact(s, limits, BoundedRetryAfter(Script(s, limits).1.retry));
  }

  // ---------- charging ----------

  /** With distinct keys, an admitted call charges each of its keys once and no other. */
  lemma {:induction false} ChargeAllAt(s: Store, limits: seq<Limit>, key: Key)
    requires DistinctKeys(limits)
    ensures ChargeAll(s, limits).now == s.now
    ensures forall i | 0 <= i < |limits| && limits[i].key == key ::
              key in ChargeAll(s, limits).counters
              && ChargeAll(s, limits).counters[key] == Charge(s, limits[i]).counters[key]
    ensures !Mentions(limits, key) ==>
              (key in ChargeAll(s, limits).counters <==> key in s.counters)
              && (key in s.counters ==> ChargeAll(s, limits).counters[key] == s.counters[key])
    decreases |limits|
  {
    if limits != [] {
      ChargeAllAt(Charge(s, limits[0]), limits[1..], key);
      if limits[0].key == key {
        assert !Mentions(limits[1..], key);
      } else if Mentions(limits[1..], key) {
        var i :| 0 <= i < |limits[1..]| && limits[1..][i].key == key;
        assert limits[i + 1].key == key;
      }
    }
  }

  // ---------- the calls the application makes ----------

  datatype Settings = Settings(enabled: bool, signinAccount: Policy, signinIp: Policy, signinCombined: Policy)

  function SigninLimits(settings: Settings, email: string, host: string): (limits: seq<Limit>)
    ensures DistinctKeys(limits)
  {
    [Limit(Key("signin_account", email), settings.signinAccount),
     Limit(Key("signin_ip", host), settings.signinIp),
     Limit(Key("signin_combined", email + "\0" + host), settings.signinCombined)]
  }

  function SigninClearedKeys(email: string, host: string): seq<Key> {
    [Key("signin_account", email), Key("signin_combined", email + "\0" + host)]
  }

  function Clear(s: Store, keys: seq<Key>): Store {
    s.(counters := map k | k in s.counters && k !in keys :: s.counters[k])
  }

  datatype Decision = Decision(allowed: bool, retryAfter: nat, storeAvailable: bool, category: Option<string>)

  /** `reserve` around the script: off or unreachable, it lets the request through. */
  function Decide(enabled: bool, reachable: bool, s: Store, limits: seq<Limit>): (Store, Decision) {
    if !enabled then (s, Decision(true, 0, false, None))
    else if limits == [] then (s, Decision(true, 0, true, None))
    else if !reachable then (s, Decision(true, 0, false, None))
    else
      var (s', reply) := Script(s, limits);
      match reply
      case Admitted => (s', Decision(true, 0, true, None))
      case Denied(retry, i) => (s', Decision(false, BoundedRetryAfter(retry), true, Some(limits[i].key.category)))
  }

  /** What the caller is told, from the counters alone: a request passes if and only if the limiter
      is off or unreachable or no limit is saturated.  It charges every limit if it passes
      in reach, and nothing otherwise.  A refusal names the first saturated limit. */
  lemma {:induction false} DecisionIsExact(enabled: bool, reachable: bool, s: Store, limits: seq<Limit>)
    ensures var (s', d) := Decide(enabled, reachable, s, limits);
            && (d.allowed <==> !enabled || !reachable || forall i | 0 <= i < |limits| :: !Saturated(s, limits[i]))
            && (d.allowed ==> d.retryAfter == 0 && d.category == None)
            && (d.allowed ==> s' == if enabled && reachable then ChargeAll(s, limits) else s)
            && (!d.allowed ==> s' == s && 1 <= d.retryAfter <= MAX_RETRY_AFTER_SECONDS)
            && (!d.allowed ==>
                  exists i | 0 <= i < |limits| ::
                    && Saturated(s, limits[i]) && d.category == Some(limits[i].key.category)
                    && forall j | 0 <= j < i :: !Saturated(s, limits[j]))
            && (d.storeAvailable <==> enabled && (reachable || limits == []))
  {
    var i := FirstSaturated(s, limits);
  }

  /** And the delay it is told: the least number of seconds after which that limit admits, if that is
      an hour or less; an hour, which does not suffice, if it is longer; and the window, at
      most an hour, for a counter that never expires, which never suffices. */
  lemma {:induction false} RefusalDelayIsExact(s: Store, limits: seq<Limit>, i: nat, seconds: nat)
    requires i < |limits| && Saturated(s, limits[i]) && limits[i].policy.limit > 0
    requires forall j | 0 <= j < i :: !Saturated(s, limits[j])
    ensures var d, pttl := Decide(true, true, s, limits).1, Pttl(s, limits[i].key);
            && !d.allowed
            && (0 <= pttl <= MAX_RETRY_AFTER_SECONDS * 1000 ==>
                  (AdmitsAfter(s, limits[i], seconds) <==> seconds >= d.retryAfter))
            && (pttl > MAX_RETRY_AFTER_SECONDS * 1000 ==>
                  d.retryAfter == MAX_RETRY_AFTER_SECONDS && !AdmitsAfter(s, limits[i], d.retryAfter))
            && (pttl < 0 ==>
                  && !AdmitsAfter(s, limits[i], seconds)
                  && (1 <= limits[i].policy.windowSeconds <= MAX_RETRY_AFTER_SECONDS ==>
                        d.retryAfter == limits[i].policy.windowSeconds))
  {
    var first := FirstSaturated(s, limits);
    assert first == i;
  }

  /** A sign-in passes if and only if the account, the address and the two together are each below
      their own limit, and then counts once against each. */
  lemma {:induction false} SigninAllowedIff(s: Store, settings: Settings, email: string, host: string)
    ensures var (s', d) := Decide(true, true, s, SigninLimits(settings, email, host));
            var account, ip, both := Key("signin_account", email), Key("signin_ip", host), Key("signin_combined", email + "\0" + host);
            && (d.allowed <==>
                  && Count(s, account) < settings.signinAccount.limit
                  && Count(s, ip) < settings.signinIp.limit
                  && Count(s, both) < settings.signinCombined.limit)
            && (d.allowed ==>
                  && s'.counters.Keys == s.counters.Keys + {account, ip, both}
                  && s'.counters[account] == Charge(s, Limit(account, settings.signinAccount)).counters[account]
                  && s'.counters[ip] == Charge(s, Limit(ip, settings.signinIp)).counters[ip]
                  && s'.counters[both] == Charge(s, Limit(both, settings.signinCombined)).counters[both])
            && (!d.allowed ==>
                  d.category == Some(if Count(s, account) >= settings.signinAccount.limit then "signin_account"
                                     else if Count(s, ip) >= settings.signinIp.limit then "signin_ip"
                                     else "signin_combined"))
  {
    var limits := SigninLimits(settings, email, host);
    DecisionIsExact(true, true, s, limits);
    assert limits[0].key == Key("signin_account", email) && limits[1].key == Key("signin_ip", host);
    forall key ensures key in ChargeAll(s, limits).counters <==> key in s.counters || Mentions(limits, key) {
      ChargeAllAt(s, limits, key);
    }
    ChargeAllAt(s, limits, limits[0].key);
    ChargeAllAt(s, limits, limits[1].key);
    ChargeAllAt(s, limits, limits[2].key);
  }

  class AuthRateLimiter {
    const settings: Settings
    var counters: map<Key, Counter>
    var now: nat

    function Value(): Store
      reads this
    {
      Store(counters, now)
    }

    constructor (settings: Settings)
      ensures this.settings == settings && Value() == Store(map[], 0)
    {
      this.settings, counters, now := settings, map[], 0;
    }

    /** The script: check every key, then charge every key. */
    method RunScript(limits: seq<Limit>) returns (reply: Reply)
      modifies this`counters
      ensures (Value(), reply) == Script(old(Value()), limits)
    {
      for i := 0 to |limits|
        invariant Value() == old(Value())
        invariant forall j | 0 <= j < i :: !Saturated(Value(), limits[j])
      {
        var key, policy := limits[i].key, limits[i].policy;
        var current := Count(Value(), key);
        if current >= policy.limit {
          var ttl := Pttl(Value(), key);
          if ttl < 0 {
            ttl := policy.windowSeconds * 1000;
          }
          var retry := (ttl + 999) / 1000;
          if retry < 1 {
            retry := 1;
          }
          return Denied(retry, i);
        }
      }
      for i := 0 to |limits|
        invariant now == old(now)
        invariant ChargeAll(Value(), limits[i..]) == ChargeAll(old(Value()), limits)
      {
        var key, window := limits[i].key, limits[i].policy.windowSeconds;
        assert limits[i..][0] == limits[i] && limits[i..][1..] == limits[i + 1..];
        var before := if Alive(Value(), key) then counters[key] else Counter(0, None);
        var count := before.count + 1;
        if count == 1 {
          counters := counters[key := Counter(count, Some(now + window * 1000))];
        } else if before.expiresAt == None {
          counters := counters[key := Counter(count, Some(now + window * 1000))];
        } else {
          counters := counters[key := Counter(count, before.expiresAt)];
        }
      }
      reply := Admitted;
    }

    method Reserve(limits: seq<Limit>, reachable: bool) returns (decision: Decision)
      modifies this`counters
      ensures (Value(), decision) == Decide(settings.enabled, reachable, old(Value()), limits)
    {
      if !settings.enabled {
        return Decision(true, 0, false, None);
      }
      if limits == [] {
        return Decision(true, 0, true, None);
      }
      if !reachable {
        return Decision(true, 0, false, None);
      }
      var reply := RunScript(limits);
      if reply.Admitted? {
        return Decision(true, 0, true, None);
      }
      decision := Decision(false, BoundedRetryAfter(reply.retry), true, Some(limits[reply.index].key.category));
    }

    method ClearKeys(keys: seq<Key>, reachable: bool)
      modifies this`counters
      ensures Value() == if settings.enabled && keys != [] && reachable then Clear(old(Value()), keys) else old(Value())
    {
      if !settings.enabled || keys == [] || !reachable {
        return;
      }
      for i := 0 to |keys|
        invariant now == old(now)
        invariant counters == (map k | k in old(counters) && k !in keys[..i] :: old(counters)[k])
      {
        counters := counters - {keys[i]};
        assert keys[..i + 1] == keys[..i] + [keys[i]];
      }
      assert keys[..|keys|] == keys;
    }

    method ClearSigninAccount(email: string, host: string, reachable: bool)
      modifies this`counters
      ensures Value() == if settings.enabled && reachable
                         then Clear(old(Value()), SigninClearedKeys(email, host)) else old(Value())
    {
      ClearKeys(SigninClearedKeys(email, host), reachable);
    }
  }
}
