// AuthAbuseProtector (gateway/security_controls.py): sliding attempt windows and
// lockouts with exponential backoff, per IP and per account. Clock readings are
// parameters; a run is any sequence of calls.
module AuthAbuse {
  import opened Wrappers
  import Text

  datatype Config = Config(
    attemptWindow: int, maxPerIp: int, maxPerAccount: int,
    failureWindow: int, maxFailures: int, baseLockout: nat, maxLockout: int)

  datatype Decision = Decision(allowed: bool, retryAfter: int, reason: string)

  datatype FailureResult = FailureResult(lockoutApplied: bool, retryAfter: int)

  type Buckets = map<string, seq<int>>

  datatype State = State(
    attemptsByIp: Buckets, attemptsByAccount: Buckets, failuresByIp: Buckets, failuresByAccount: Buckets,
    lockoutUntil: map<string, int>, lockoutCount: map<string, nat>)

  const EMPTY := State(map[], map[], map[], map[], map[], map[])

  function IpKey(ip: string): string {
    "ip:" + ip
  }

  function AccountKey(account: string): string {
    "acct:" + Text.Lower(account)
  }

  // ----- one call -----

  function Get(m: Buckets, key: string): seq<int> {
    if key in m then m[key] else []
  }

  /** popleft while the head is not after the threshold. */
  function Pruned(bucket: seq<int>, threshold: int): seq<int> {
    if bucket != [] && bucket[0] <= threshold then Pruned(bucket[1..], threshold) else bucket
  }

  function RetrySeconds(s: State, key: string, now: int): int {
    if key !in s.lockoutUntil || s.lockoutUntil[key] <= now then 0 else s.lockoutUntil[key] - now
  }

  predicate Locked(s: State, key: string, now: int) {
    key in s.lockoutUntil && now < s.lockoutUntil[key]
  }

  function Pow2(n: nat): nat {
    if n == 0 then 1 else 2 * Pow2(n - 1)
  }

  /** Length of the k-th lockout of a key. */
  function Duration(cfg: Config, k: nat): int
    requires k >= 1
  {
    var d := cfg.baseLockout * Pow2(k - 1);
    if d <= cfg.maxLockout then d else cfg.maxLockout
  }

  function CountOf(s: State, key: string): nat {
    if key in s.lockoutCount then s.lockoutCount[key] else 0
  }

  function Activated(cfg: Config, s: State, key: string, now: int): State {
    var count := CountOf(s, key) + 1;
    s.(lockoutCount := s.lockoutCount[key := count], lockoutUntil := s.lockoutUntil[key := now + Duration(cfg, count)])
  }

  function AfterAttempt(cfg: Config, s: State, now: int, ip: string, account: string): (State, Decision) {
    var ik, ak := IpKey(ip), AccountKey(account);
    if RetrySeconds(s, ik, now) > 0 then (s, Decision(false, RetrySeconds(s, ik, now), "temporary_lockout"))
    else if RetrySeconds(s, ak, now) > 0 then (s, Decision(false, RetrySeconds(s, ak, now), "temporary_lockout"))
    else
      var threshold := now - cfg.attemptWindow;
      var ipBucket := Pruned(Get(s.attemptsByIp, ik), threshold);
      var acctBucket := Pruned(Get(s.attemptsByAccount, ak), threshold);
      var s' := s.(attemptsByIp := s.attemptsByIp[ik := ipBucket],
                   attemptsByAccount := s.attemptsByAccount[ak := acctBucket]);
      if |ipBucket| >= cfg.maxPerIp || |acctBucket| >= cfg.maxPerAccount then
        (s', Decision(false, cfg.attemptWindow, "rate_limited"))
      else
        (s'.(attemptsByIp := s'.attemptsByIp[ik := ipBucket + [now]],
             attemptsByAccount := s'.attemptsByAccount[ak := acctBucket + [now]]),
         Decision(true, 0, "allowed"))
  }

  function AfterSuccess(s: State, ip: string, account: string): State {
    var ik, ak := IpKey(ip), AccountKey(account);
    s.(failuresByIp := s.failuresByIp - {ik}, failuresByAccount := s.failuresByAccount - {ak},
       lockoutUntil := s.lockoutUntil - {ik, ak})
  }

  function AfterFailure(cfg: Config, s: State, now: int, ip: string, account: string): (State, FailureResult) {
    var ik, ak := IpKey(ip), AccountKey(account);
    var threshold := now - cfg.failureWindow;
    var ipBucket := Pruned(Get(s.failuresByIp, ik), threshold) + [now];
    var acctBucket := Pruned(Get(s.failuresByAccount, ak), threshold) + [now];
    var s0 := s.(failuresByIp := s.failuresByIp[ik := ipBucket],
                 failuresByAccount := s.failuresByAccount[ak := acctBucket]);
    var ipHit, acctHit := |ipBucket| >= cfg.maxFailures, |acctBucket| >= cfg.maxFailures;
    var s1 := if ipHit then Activated(cfg, s0, ik, now) else s0;
    var s2 := if acctHit then Activated(cfg, s1, ak, now) else s1;
    var r1 := if ipHit then Max(0, Duration(cfg, CountOf(s0, ik) + 1)) else 0;
    var r2 := if acctHit then Max(r1, Duration(cfg, CountOf(s1, ak) + 1)) else r1;
    (s2, FailureResult(ipHit || acctHit, r2))
  }

  function Max(a: int, b: int): int {
    if a >= b then a else b
  }

  // ----- runs -----

  datatype Event =
    | Attempt(now: int, ip: string, account: string)
    | Success(now: int, ip: string, account: string)
    | Failure(now: int, ip: string, account: string)

  function Step(cfg: Config, s: State, e: Event): State {
    match e
    case Attempt(now, ip, account) => AfterAttempt(cfg, s, now, ip, account).0
    case Success(_, ip, account) => AfterSuccess(s, ip, account)
    case Failure(now, ip, account) => AfterFailure(cfg, s, now, ip, account).0
  }

  function Run(cfg: Config, events: seq<Event>): State {
    if events == [] then EMPTY else Step(cfg, Run(cfg, events[..|events| - 1]), events[|events| - 1])
  }

  predicate Allows(cfg: Config, s: State, e: Event) {
    e.Attempt? && AfterAttempt(cfg, s, e.now, e.ip, e.account).1.allowed
  }

  predicate ClockAscends(events: seq<Event>) {
    forall i, j :: 0 <= i < j < |events| ==> events[i].now <= events[j].now
  }

  predicate NoLaterThan(events: seq<Event>, now: int) {
    forall i :: 0 <= i < |events| ==> events[i].now <= now
  }

  predicate Concerns(e: Event, key: string) {
    key == IpKey(e.ip) || key == AccountKey(e.account)
  }

  /** Times of the attempts allowed so far for a key. */
  function AllowedTimes(cfg: Config, events: seq<Event>, key: string): seq<int> {
    if events == [] then []
    else
      var front, e := events[..|events| - 1], events[|events| - 1];
      AllowedTimes(cfg, front, key) + if Allows(cfg, Run(cfg, front), e) && Concerns(e, key) then [e.now] else []
  }

  /** Times of the failures recorded for a key since its last success. */
  function FailureTimes(events: seq<Event>, key: string): seq<int> {
    if events == [] then []
    else
      var front, e := events[..|events| - 1], events[|events| - 1];
      if !Concerns(e, key) then FailureTimes(front, key)
      else match e
        case Attempt(_, _, _) => FailureTimes(front, key)
        case Success(_, _, _) => []
        case Failure(now, _, _) => FailureTimes(front, key) + [now]
  }

  lemma KeysDiffer(ip: string, account: string)
    ensures IpKey(ip) != AccountKey(account)
  {
    assert IpKey(ip)[0] != AccountKey(account)[0];
  }

  // ----- buckets against history -----

  predicate SortedTimes(times: seq<int>) {
    forall i, j :: 0 <= i < j < |times| ==> times[i] <= times[j]
  }

  /** How many of the times lie in the half-open window (lo, hi]. */
  function CountIn(times: seq<int>, lo: int, hi: int): nat {
    if times == [] then 0
    else
      var last := times[|times| - 1];
      CountIn(times[..|times| - 1], lo, hi) + if lo < last <= hi then 1 else 0
  }

  /** The bucket is what is left of the history after dropping times outside the window. */
  ghost predicate Tracks(bucket: seq<int>, times: seq<int>, now: int, window: int) {
    && SortedTimes(times) && (forall i :: 0 <= i < |times| ==> times[i] <= now)
    && |bucket| <= |times| && bucket == times[|times| - |bucket|..]
    && forall i :: 0 <= i < |times| - |bucket| ==> times[i] <= now - window
  }

  lemma TracksLater(bucket: seq<int>, times: seq<int>, before: int, now: int, window: int)
    requires Tracks(bucket, times, before, window) && before <= now
    ensures Tracks(bucket, times, now, window)
  {
  }

  lemma TracksAppend(bucket: seq<int>, times: seq<int>, now: int, window: int)
    requires Tracks(bucket, times, now, window)
    ensures Tracks(bucket + [now], times + [now], now, window)
  {
  }

  lemma {:induction false} CountOutside(times: seq<int>, lo: int, hi: int)
    requires forall i :: 0 <= i < |times| ==> times[i] <= lo || hi < times[i]
    ensures CountIn(times, lo, hi) == 0
  {
    if times == [] {
    } else {
      CountOutside(times[..|times| - 1], lo, hi);
    }
  }

  lemma {:induction false} CountSplit(times: seq<int>, k: nat, lo: int, hi: int)
    requires k <= |times|
    requires forall i :: 0 <= i < k ==> times[i] <= lo
    ensures CountIn(times, lo, hi) == CountIn(times[k..], lo, hi) <= |times| - k
  {
    if k == |times| {
      CountOutside(times, lo, hi);
    } else {
      var n := |times| - 1;
      CountSplit(times[..n], k, lo, hi);
      assert times[..n][k..] == times[k..][..n - k];
    }
  }

  lemma {:induction false} CountAll(times: seq<int>, lo: int, hi: int)
    requires forall i :: 0 <= i < |times| ==> lo < times[i] <= hi
    ensures CountIn(times, lo, hi) == |times|
  {
    if times == [] {
    } else {
      CountAll(times[..|times| - 1], lo, hi);
    }
  }

  lemma TracksDrop(bucket: seq<int>, times: seq<int>, now: int, window: int)
    requires Tracks(bucket, times, now, window) && bucket != [] && bucket[0] <= now - window
    ensures Tracks(bucket[1..], times, now, window)
  {
    var d := |times| - |bucket|;
    assert times[d] == bucket[0];
    assert bucket[1..] == times[d..][1..] == times[d + 1..];
  }

  lemma TracksCount(bucket: seq<int>, times: seq<int>, now: int, window: int)
    requires Tracks(bucket, times, now, window) && (bucket != [] ==> bucket[0] > now - window)
    ensures |bucket| == CountIn(times, now - window, now)
  {
    var d := |times| - |bucket|;
    CountSplit(times, d, now - window, now);
    forall i | 0 <= i < |bucket| ensures now - window < bucket[i] <= now {
      assert bucket[i] == times[d + i] && bucket[0] == times[d];
    }
    CountAll(bucket, now - window, now);
  }

  /** After pruning the bucket holds exactly the history inside the window. */
  lemma {:induction false} TracksPruned(bucket: seq<int>, times: seq<int>, now: int, window: int)
    requires Tracks(bucket, times, now, window)
    ensures Tracks(Pruned(bucket, now - window), times, now, window)
    ensures |Pruned(bucket, now - window)| == CountIn(times, now - window, now)
    decreases |bucket|
  {
    hide Tracks, CountIn;
    if bucket != [] && bucket[0] <= now - window {
      TracksDrop(bucket, times, now, window);
      TracksPruned(bucket[1..], times, now, window);
    } else {
      TracksCount(bucket, times, now, window);
    }
  }

  // ----- the attempt windows -----

  /** Any max + 1 consecutive times span more than the window. */
  ghost predicate Spaced(times: seq<int>, max: int, window: int) {
    && (max <= 0 ==> times == [])
    && forall i, j :: 0 <= i && 0 <= max && j == i + max && j < |times| ==> times[i] <= times[j] - window
  }

  /** What a run keeps for the attempts of one scope. */
  ghost predicate AttemptsOk(cfg: Config, events: seq<Event>, key: string, now: int, bucket: seq<int>, max: int) {
    && Tracks(bucket, AllowedTimes(cfg, events, key), now, cfg.attemptWindow)
    && Spaced(AllowedTimes(cfg, events, key), max, cfg.attemptWindow)
  }

  lemma AppendSpaced(bucket: seq<int>, times: seq<int>, now: int, max: int, window: int)
    requires Tracks(bucket, times, now, window) && Spaced(times, max, window) && |bucket| < max
    ensures Spaced(times + [now], max, window)
  {
  }

  /** A bucket after one call: untouched, pruned, or pruned and extended. */
  function NextBucket(bucket: seq<int>, now: int, window: int, pruned: bool, allowed: bool): seq<int> {
    if !pruned then bucket
    else Pruned(bucket, now - window) + if allowed then [now] else []
  }

  lemma NextBucketOk(bucket: seq<int>, times: seq<int>, now: int, window: int, max: int, pruned: bool, allowed: bool)
    requires Tracks(bucket, times, now, window) && Spaced(times, max, window)
    requires allowed ==> pruned && |Pruned(bucket, now - window)| < max
    ensures var times' := times + if allowed then [now] else [];
            Tracks(NextBucket(bucket, now, window, pruned, allowed), times', now, window) && Spaced(times', max, window)
  {
    hide Tracks, Spaced;
    TracksPruned(bucket, times, now, window);
    var kept := Pruned(bucket, now - window);
    assert kept + [] == kept && times + [] == times;
    if allowed {
      TracksAppend(kept, times, now, window);
      AppendSpaced(kept, times, now, max, window);
    }
  }

  predicate Considers(s: State, e: Event) {
    e.Attempt? && !Locked(s, IpKey(e.ip), e.now) && !Locked(s, AccountKey(e.account), e.now)
  }

  lemma ConsideredIff(cfg: Config, s: State, e: Event)
    ensures Allows(cfg, s, e) <==>
            && Considers(s, e)
            && |Pruned(Get(s.attemptsByIp, IpKey(e.ip)), e.now - cfg.attemptWindow)| < cfg.maxPerIp
            && |Pruned(Get(s.attemptsByAccount, AccountKey(e.account)), e.now - cfg.attemptWindow)| < cfg.maxPerAccount
  {
    hide Pruned, IpKey, AccountKey, Get;
  }

  /** What one call does to the attempts of an IP. */
  lemma IpAttemptEffect(cfg: Config, s: State, e: Event, key: string)
    ensures Get(Step(cfg, s, e).attemptsByIp, key) ==
            NextBucket(Get(s.attemptsByIp, key), e.now, cfg.attemptWindow,
                       Considers(s, e) && key == IpKey(e.ip), Allows(cfg, s, e) && key == IpKey(e.ip))
  {
    hide Pruned, IpKey, AccountKey;
    if e.Attempt? {
      ConsideredIff(cfg, s, e);
      var kept := Pruned(Get(s.attemptsByIp, IpKey(e.ip)), e.now - cfg.attemptWindow);
      assert kept + [] == kept;
    }
  }

  /** What one call does to the attempts of an account. */
  lemma AccountAttemptEffect(cfg: Config, s: State, e: Event, key: string)
    ensures Get(Step(cfg, s, e).attemptsByAccount, key) ==
            NextBucket(Get(s.attemptsByAccount, key), e.now, cfg.attemptWindow,
                       Considers(s, e) && key == AccountKey(e.account), Allows(cfg, s, e) && key == AccountKey(e.account))
  {
    hide Pruned, IpKey, AccountKey;
    if e.Attempt? {
      ConsideredIff(cfg, s, e);
      var kept := Pruned(Get(s.attemptsByAccount, AccountKey(e.account)), e.now - cfg.attemptWindow);
      assert kept + [] == kept;
    }
  }

  lemma {:induction false} IpAttemptsOk(cfg: Config, events: seq<Event>, ip: string, now: int)
    requires ClockAscends(events) && NoLaterThan(events, now)
    ensures AttemptsOk(cfg, events, IpKey(ip), now, Get(Run(cfg, events).attemptsByIp, IpKey(ip)), cfg.maxPerIp)
    decreases |events|
  {
    hide Step, Allows, Considers, NextBucket, Tracks, Spaced, IpKey, AccountKey, Get;
    if events == [] {
      StartOk(cfg, IpKey(ip), now, cfg.maxPerIp);
    } else {
      var front, e := events[..|events| - 1], events[|events| - 1];
      var key, s := IpKey(ip), Run(cfg, front);
      IpAttemptsOk(cfg, front, ip, e.now);
      KeysDiffer(ip, e.account);
      IpAttemptEffect(cfg, s, e, key);
      ConsideredIff(cfg, s, e);
      var mine := key == IpKey(e.ip);
      NextBucketOk(Get(s.attemptsByIp, key), AllowedTimes(cfg, front, key), e.now, cfg.attemptWindow, cfg.maxPerIp,
                   Considers(s, e) && mine, Allows(cfg, s, e) && mine);
      TracksLater(Get(Run(cfg, events).attemptsByIp, key), AllowedTimes(cfg, events, key), e.now, now, cfg.attemptWindow);
    }
  }

  lemma StartOk(cfg: Config, key: string, now: int, max: int)
    ensures AttemptsOk(cfg, [], key, now, Get(EMPTY.attemptsByIp, key), max)
    ensures AttemptsOk(cfg, [], key, now, Get(EMPTY.attemptsByAccount, key), max)
  {
  }

  lemma {:induction false} AccountAttemptsOk(cfg: Config, events: seq<Event>, account: string, now: int)
    requires ClockAscends(events) && NoLaterThan(events, now)
    ensures AttemptsOk(cfg, events, AccountKey(account), now,
                       Get(Run(cfg, events).attemptsByAccount, AccountKey(account)), cfg.maxPerAccount)
    decreases |events|
  {
    hide Step, Allows, Considers, NextBucket, Tracks, Spaced, IpKey, AccountKey, Get;
    if events == [] {
      StartOk(cfg, AccountKey(account), now, cfg.maxPerAccount);
    } else {
      var front, e := events[..|events| - 1], events[|events| - 1];
      var key, s := AccountKey(account), Run(cfg, front);
      AccountAttemptsOk(cfg, front, account, e.now);
      KeysDiffer(e.ip, account);
      AccountAttemptEffect(cfg, s, e, key);
      ConsideredIff(cfg, s, e);
      var mine := key == AccountKey(e.account);
      NextBucketOk(Get(s.attemptsByAccount, key), AllowedTimes(cfg, front, key), e.now, cfg.attemptWindow,
                   cfg.maxPerAccount, Considers(s, e) && mine, Allows(cfg, s, e) && mine);
      TracksLater(Get(Run(cfg, events).attemptsByAccount, key), AllowedTimes(cfg, events, key), e.now, now,
                  cfg.attemptWindow);
    }
  }

  lemma {:induction false} SpacedBoundsWindow(times: seq<int>, max: int, window: int, t: int)
    requires SortedTimes(times) && Spaced(times, max, window)
    ensures CountIn(times, t - window, t) <= if max < 0 then 0 else max
  {
    if times == [] {
    } else {
      var n := |times| - 1;
      if times[n] > t {
        SpacedBoundsWindow(times[..n], max, window, t);
      } else if max <= n {
        var k := n - max + 1;
        assert times[n - max] <= times[n] - window;
        CountSplit(times, k, t - window, t);
      } else {
        CountSplit(times, 0, t - window, t);
      }
    }
  }

  /** In every half-open window, over any run, the allowed attempts of an IP and of an account stay within their maxima. */
  lemma WindowBound(cfg: Config, events: seq<Event>, ip: string, account: string, t: int)
    requires ClockAscends(events)
    ensures CountIn(AllowedTimes(cfg, events, IpKey(ip)), t - cfg.attemptWindow, t) <= Max(0, cfg.maxPerIp)
    ensures CountIn(AllowedTimes(cfg, events, AccountKey(account)), t - cfg.attemptWindow, t) <= Max(0, cfg.maxPerAccount)
  {
    hide Run, AllowedTimes, CountIn, Spaced, IpKey, AccountKey;
    var now := if events == [] then 0 else events[|events| - 1].now;
    IpAttemptsOk(cfg, events, ip, now);
    AccountAttemptsOk(cfg, events, account, now);
    SpacedBoundsWindow(AllowedTimes(cfg, events, IpKey(ip)), cfg.maxPerIp, cfg.attemptWindow, t);
    SpacedBoundsWindow(AllowedTimes(cfg, events, AccountKey(account)), cfg.maxPerAccount, cfg.attemptWindow, t);
  }

  /** The decision in terms of the history alone: no active lockout, and room in both windows. */
  lemma AllowedIff(cfg: Config, events: seq<Event>, e: Event)
    requires ClockAscends(events) && NoLaterThan(events, e.now) && e.Attempt?
    ensures Allows(cfg, Run(cfg, events), e) <==>
            && !Locked(Run(cfg, events), IpKey(e.ip), e.now) && !Locked(Run(cfg, events), AccountKey(e.account), e.now)
            && CountIn(AllowedTimes(cfg, events, IpKey(e.ip)), e.now - cfg.attemptWindow, e.now) < cfg.maxPerIp
            && CountIn(AllowedTimes(cfg, events, AccountKey(e.account)), e.now - cfg.attemptWindow, e.now) < cfg.maxPerAccount
  {
    hide Run, AllowedTimes, CountIn, Tracks, Spaced, IpKey, AccountKey, Pruned, AfterAttempt, Step, NextBucket, Allows, Locked;
    var s := Run(cfg, events);
    ConsideredIff(cfg, s, e);
    IpAttemptsOk(cfg, events, e.ip, e.now);
    AccountAttemptsOk(cfg, events, e.account, e.now);
    TracksPruned(Get(s.attemptsByIp, IpKey(e.ip)), AllowedTimes(cfg, events, IpKey(e.ip)), e.now, cfg.attemptWindow);
    TracksPruned(Get(s.attemptsByAccount, AccountKey(e.account)), AllowedTimes(cfg, events, AccountKey(e.account)),
                 e.now, cfg.attemptWindow);
  }

  // ----- lockouts -----

  /** This failure and the earlier ones inside the window, since the last success, reach the threshold. */
  predicate Locks(cfg: Config, events: seq<Event>, e: Event, key: string) {
    && e.Failure? && Concerns(e, key)
    && CountIn(FailureTimes(events, key), e.now - cfg.failureWindow, e.now) + 1 >= cfg.maxFailures
  }

  /** How many times a run has locked a key. */
  function Lockouts(cfg: Config, events: seq<Event>, key: string): nat {
    if events == [] then 0
    else
      var front, e := events[..|events| - 1], events[|events| - 1];
      Lockouts(cfg, front, key) + if Locks(cfg, front, e, key) then 1 else 0
  }

  function FailureBucket(s: State, key: string): seq<int> {
    if "ip:" <= key then Get(s.failuresByIp, key) else Get(s.failuresByAccount, key)
  }

  function KeptFailures(cfg: Config, s: State, e: Event, key: string): seq<int> {
    Pruned(FailureBucket(s, key), e.now - cfg.failureWindow) + [e.now]
  }

  lemma FailureBuckets(cfg: Config, s: State, e: Event, key: string)
    requires e.Failure?
    ensures FailureBucket(Step(cfg, s, e), key) == if Concerns(e, key) then KeptFailures(cfg, s, e, key) else FailureBucket(s, key)
  {
    hide Pruned, IpKey, AccountKey, Duration, CountOf;
    KeyKinds(e);
  }

  /** What one call does to the failures of a key. */
  lemma FailureBucketEffect(cfg: Config, s: State, e: Event, key: string)
    ensures FailureBucket(Step(cfg, s, e), key) ==
            if !Concerns(e, key) || e.Attempt? then FailureBucket(s, key)
            else if e.Success? then [] else KeptFailures(cfg, s, e, key)
  {
    hide Pruned, IpKey, AccountKey, Duration, KeptFailures, CountOf, AfterFailure;
    KeyKinds(e);
    if e.Failure? {
      FailureBuckets(cfg, s, e, key);
    }
  }

  /** What one call does to the count and the deadline of a key. */
  ghost predicate LockoutMoves(cfg: Config, s: State, s': State, e: Event, key: string, locks: bool) {
    && CountOf(s', key) == CountOf(s, key) + (if locks then 1 else 0)
    && (locks ==> key in s'.lockoutUntil && s'.lockoutUntil[key] == e.now + Duration(cfg, CountOf(s, key) + 1))
    && (!locks && !(e.Success? && Concerns(e, key)) ==>
          (key in s'.lockoutUntil <==> key in s.lockoutUntil)
          && (key in s.lockoutUntil ==> s'.lockoutUntil[key] == s.lockoutUntil[key]))
    && (e.Success? && Concerns(e, key) ==> key !in s'.lockoutUntil)
  }

  lemma LockoutEffect(cfg: Config, s: State, e: Event, key: string)
    ensures LockoutMoves(cfg, s, Step(cfg, s, e), e, key,
                         e.Failure? && Concerns(e, key) && |KeptFailures(cfg, s, e, key)| >= cfg.maxFailures)
  {
    KeyKinds(e);
    hide Pruned, IpKey, AccountKey, Duration;
    match e {
      case Attempt(_, _, _) =>
      case Success(_, _, _) =>
      case Failure(_, _, _) => FailureLockout(cfg, s, e, key);
    }
  }

  /** The counts and deadlines after a failure, when each key is locked or not. */
  predicate LockoutMaps(cfg: Config, s: State, s': State, e: Event, i: bool, a: bool) {
    var ik, ak := IpKey(e.ip), AccountKey(e.account);
    var counts := if i then s.lockoutCount[ik := CountOf(s, ik) + 1] else s.lockoutCount;
    var untils := if i then s.lockoutUntil[ik := e.now + Duration(cfg, CountOf(s, ik) + 1)] else s.lockoutUntil;
    && s'.lockoutCount == (if a then counts[ak := CountOf(s, ak) + 1] else counts)
    && s'.lockoutUntil == (if a then untils[ak := e.now + Duration(cfg, CountOf(s, ak) + 1)] else untils)
  }

  lemma TwoActivations(cfg: Config, s: State, s0: State, e: Event, i: bool, a: bool)
    requires s0.lockoutCount == s.lockoutCount && s0.lockoutUntil == s.lockoutUntil
    ensures var s1 := if i then Activated(cfg, s0, IpKey(e.ip), e.now) else s0;
            LockoutMaps(cfg, s, if a then Activated(cfg, s1, AccountKey(e.account), e.now) else s1, e, i, a)
  {
    hide IpKey, AccountKey, Duration;
    KeyKinds(e);
  }

  lemma FailureLockoutMaps(cfg: Config, s: State, e: Event)
    requires e.Failure?
    ensures LockoutMaps(cfg, s, Step(cfg, s, e), e, |KeptFailures(cfg, s, e, IpKey(e.ip))| >= cfg.maxFailures,
                        |KeptFailures(cfg, s, e, AccountKey(e.account))| >= cfg.maxFailures)
  {
    hide Pruned, IpKey, AccountKey, Duration, LockoutMaps, Activated, CountOf;
    KeyKinds(e);
    var ik, ak := IpKey(e.ip), AccountKey(e.account);
    assert FailureBucket(s, ik) == Get(s.failuresByIp, ik) && FailureBucket(s, ak) == Get(s.failuresByAccount, ak);
    hide FailureBucket, Get;
    var s0 := s.(failuresByIp := s.failuresByIp[ik := KeptFailures(cfg, s, e, ik)],
                 failuresByAccount := s.failuresByAccount[ak := KeptFailures(cfg, s, e, ak)]);
    TwoActivations(cfg, s, s0, e, |KeptFailures(cfg, s, e, ik)| >= cfg.maxFailures, |KeptFailures(cfg, s, e, ak)| >= cfg.maxFailures);
  }

  lemma FailureCount(cfg: Config, s: State, e: Event, key: string)
    requires e.Failure?
    ensures CountOf(Step(cfg, s, e), key) == CountOf(s, key) +
            if Concerns(e, key) && |KeptFailures(cfg, s, e, key)| >= cfg.maxFailures then 1 else 0
  {
    hide Step, KeptFailures, IpKey, AccountKey, Duration;
    KeyKinds(e);
    FailureLockoutMaps(cfg, s, e);
  }

  /** Two conditional updates of a map, read back at any key. */
  lemma TwoUpdates(m: map<string, int>, m': map<string, int>, ik: string, ak: string, i: bool, a: bool, v: int, w: int,
                   key: string)
    requires ik != ak
    requires m' == var n := if i then m[ik := v] else m; if a then n[ak := w] else n
    ensures key == ik && i ==> key in m' && m'[key] == v
    ensures key == ak && a ==> key in m' && m'[key] == w
    ensures !(key == ik && i) && !(key == ak && a) ==> (key in m' <==> key in m) && (key in m ==> m'[key] == m[key])
  {
  }

  lemma FailureLockout(cfg: Config, s: State, e: Event, key: string)
    requires e.Failure?
    ensures LockoutMoves(cfg, s, Step(cfg, s, e), e, key,
                         Concerns(e, key) && |KeptFailures(cfg, s, e, key)| >= cfg.maxFailures)
  {
    hide Step, KeptFailures, IpKey, AccountKey, Duration, CountOf;
    KeyKinds(e);
    FailureCount(cfg, s, e, key);
    var ik, ak := IpKey(e.ip), AccountKey(e.account);
    var s' := Step(cfg, s, e);
    var i, a := |KeptFailures(cfg, s, e, ik)| >= cfg.maxFailures, |KeptFailures(cfg, s, e, ak)| >= cfg.maxFailures;
    var v, w := e.now + Duration(cfg, CountOf(s, ik) + 1), e.now + Duration(cfg, CountOf(s, ak) + 1);
    assert s'.lockoutUntil == var n := if i then s.lockoutUntil[ik := v] else s.lockoutUntil; if a then n[ak := w] else n by {
      FailureLockoutMaps(cfg, s, e);
    }
    TwoUpdates(s.lockoutUntil, s'.lockoutUntil, ik, ak, i, a, v, w, key);
  }

  lemma {:induction false} FailuresTracked(cfg: Config, events: seq<Event>, key: string, now: int)
    requires ClockAscends(events) && NoLaterThan(events, now)
    ensures Tracks(FailureBucket(Run(cfg, events), key), FailureTimes(events, key), now, cfg.failureWindow)
    decreases |events|
  {
    hide Step, FailureBucket, Concerns, Tracks, Pruned;
    if events == [] {
      NothingTracked(key, now, cfg.failureWindow);
    } else {
      var front, e := events[..|events| - 1], events[|events| - 1];
      var s := Run(cfg, front);
      FailuresTracked(cfg, front, key, e.now);
      FailureBucketEffect(cfg, s, e, key);
      var bucket, times := FailureBucket(s, key), FailureTimes(front, key);
      TracksPruned(bucket, times, e.now, cfg.failureWindow);
      TracksAppend(Pruned(bucket, e.now - cfg.failureWindow), times, e.now, cfg.failureWindow);
      NothingTracked(key, e.now, cfg.failureWindow);
      TracksLater(FailureBucket(Run(cfg, events), key), FailureTimes(events, key), e.now, now, cfg.failureWindow);
    }
  }

  lemma NothingTracked(key: string, now: int, window: int)
    ensures Tracks([], [], now, window) && FailureBucket(EMPTY, key) == []
  {
  }

  lemma KeyKinds(e: Event)
    ensures "ip:" <= IpKey(e.ip) && !("ip:" <= AccountKey(e.account)) && IpKey(e.ip) != AccountKey(e.account)
  {
    KeysDiffer(e.ip, e.account);
    assert "ip:"[0] != AccountKey(e.account)[0];
  }

  /** A failure locks a key exactly when the threshold is met by failures since the last success. */
  lemma LocksIff(cfg: Config, events: seq<Event>, e: Event, key: string)
    requires ClockAscends(events) && NoLaterThan(events, e.now)
    ensures LockoutMoves(cfg, Run(cfg, events), Step(cfg, Run(cfg, events), e), e, key, Locks(cfg, events, e, key))
  {
    hide Step, Run, FailureBucket, Concerns, Tracks, Pruned, FailureTimes, LockoutMoves;
    LockoutEffect(cfg, Run(cfg, events), e, key);
    FailuresTracked(cfg, events, key, e.now);
    TracksPruned(FailureBucket(Run(cfg, events), key), FailureTimes(events, key), e.now, cfg.failureWindow);
  }

  /** The count of a key is the number of times it was locked. */
  lemma {:induction false} CountIsLockouts(cfg: Config, events: seq<Event>, key: string)
    requires ClockAscends(events)
    ensures CountOf(Run(cfg, events), key) == Lockouts(cfg, events, key)
    decreases |events|
  {
    hide Step, Locks, Duration, Concerns;
    if events == [] {
    } else {
      var front, e := events[..|events| - 1], events[|events| - 1];
      CountIsLockouts(cfg, front, key);
      LocksIff(cfg, front, e, key);
    }
  }

  lemma {:induction false} Pow2Grows(a: nat, b: nat)
    requires a <= b
    ensures Pow2(a) <= Pow2(b)
  {
    if a < b {
      Pow2Grows(a, b - 1);
    }
  }

  lemma DurationGrows(cfg: Config, a: nat, b: nat)
    requires 1 <= a <= b
    ensures Duration(cfg, a) <= Duration(cfg, b)
  {
    Pow2Grows(a - 1, b - 1);
    MulGrows(cfg.baseLockout, Pow2(a - 1), Pow2(b - 1));
  }

  lemma MulGrows(x: nat, y: nat, z: nat)
    requires y <= z
    ensures x * y <= x * z
  {
  }

  /** A deadline was set by the latest lockout of its key. */
  lemma {:induction false} DeadlineBound(cfg: Config, events: seq<Event>, key: string, now: int)
    requires ClockAscends(events) && NoLaterThan(events, now)
    ensures var s := Run(cfg, events);
            key in s.lockoutUntil ==> CountOf(s, key) >= 1 && s.lockoutUntil[key] <= now + Duration(cfg, CountOf(s, key))
    decreases |events|
  {
    hide Step, Locks, Duration, Concerns;
    if events == [] {
    } else {
      var front, e := events[..|events| - 1], events[|events| - 1];
      DeadlineBound(cfg, front, key, e.now);
      LocksIff(cfg, front, e, key);
    }
  }

  /** Without a success on the key its deadline stands and never moves back. */
  lemma DeadlineNeverMovesBack(cfg: Config, events: seq<Event>, e: Event, key: string)
    requires ClockAscends(events) && NoLaterThan(events, e.now)
    requires !(e.Success? && Concerns(e, key)) && key in Run(cfg, events).lockoutUntil
    ensures var s' := Step(cfg, Run(cfg, events), e);
            key in s'.lockoutUntil && Run(cfg, events).lockoutUntil[key] <= s'.lockoutUntil[key]
  {
    hide Step, Run, Locks, Duration, Concerns, CountOf;
    LocksIff(cfg, events, e, key);
    DeadlineBound(cfg, events, key, e.now);
    var k := CountOf(Run(cfg, events), key);
    DurationGrows(cfg, k, k + 1);
  }

  /** The k-th lockout of a key lasts min(base * 2^(k-1), max). */
  lemma KthLockoutDuration(cfg: Config, events: seq<Event>, e: Event, key: string)
    requires ClockAscends(events) && NoLaterThan(events, e.now) && Locks(cfg, events, e, key)
    ensures var k := Lockouts(cfg, events + [e], key);
            && k >= 1 && key in Run(cfg, events + [e]).lockoutUntil
            && Run(cfg, events + [e]).lockoutUntil[key] == e.now + Duration(cfg, k)
            && Duration(cfg, k) == (if cfg.baseLockout * Pow2(k - 1) <= cfg.maxLockout
                                    then cfg.baseLockout * Pow2(k - 1) else cfg.maxLockout)
  {
    hide Step, Locks, Concerns, Pow2;
    assert (events + [e])[..|events|] == events;
    LocksIff(cfg, events, e, key);
    CountIsLockouts(cfg, events, key);
  }

  predicate NoSuccess(events: seq<Event>, key: string) {
    forall i :: 0 <= i < |events| ==> !(events[i].Success? && Concerns(events[i], key))
  }

  lemma {:induction false} DeadlineStands(cfg: Config, events: seq<Event>, more: seq<Event>, key: string)
    requires ClockAscends(events + more) && NoSuccess(more, key)
    requires key in Run(cfg, events).lockoutUntil
    ensures var s' := Run(cfg, events + more);
            key in s'.lockoutUntil && Run(cfg, events).lockoutUntil[key] <= s'.lockoutUntil[key]
    decreases |more|
  {
    hide Step, Concerns;
    if more == [] {
      assert events + more == events;
    } else {
      var front, e := more[..|more| - 1], more[|more| - 1];
      var all := events + more;
      assert all[..|all| - 1] == events + front && all[|all| - 1] == e;
      assert forall i :: 0 <= i < |events + front| ==> all[i] == (events + front)[i];
      DeadlineStands(cfg, events, front, key);
      DeadlineNeverMovesBack(cfg, events + front, e, key);
    }
  }

  /** An active lockout denies every attempt on its key until its deadline unless a success clears it. */
  lemma LockoutDenies(cfg: Config, events: seq<Event>, more: seq<Event>, e: Event, key: string)
    requires ClockAscends(events + more) && NoSuccess(more, key)
    requires key in Run(cfg, events).lockoutUntil
    requires e.Attempt? && Concerns(e, key) && e.now < Run(cfg, events).lockoutUntil[key]
    ensures !Allows(cfg, Run(cfg, events + more), e)
  {
    DeadlineStands(cfg, events, more, key);
  }

  // ----- the object -----

  // ----- what the callers are told -----

  /**
   * A refusal names its cause: an active lockout of the address or else of the account, with the
   * seconds until its deadline, after which that key is unlocked; or a full window, with its length.
   */
  lemma RefusalSays(cfg: Config, s: State, now: int, ip: string, account: string)
    ensures var d := AfterAttempt(cfg, s, now, ip, account).1;
            var ik, ak := "ip:" + ip, "acct:" + Text.Lower(account);
            && (d.reason == "temporary_lockout" <==> Locked(s, ik, now) || Locked(s, ak, now))
            && (d.reason == "temporary_lockout" ==>
                  && !d.allowed && d.retryAfter > 0
                  && (var key := if Locked(s, ik, now) then ik else ak;
                      d.retryAfter == s.lockoutUntil[key] - now && !Locked(s, key, now + d.retryAfter)
                      && forall t :: now <= t < now + d.retryAfter ==> Locked(s, key, t)))
            && (d.reason == "rate_limited" ==> !d.allowed && d.retryAfter == cfg.attemptWindow)
            && (d.reason !in {"temporary_lockout", "rate_limited"} ==> d == Decision(true, 0, "allowed"))
  {
    hide Pruned;
  }

  /** A failure reports a lockout exactly when it set one, and the longest wait it caused. */
  lemma FailureSays(cfg: Config, s: State, now: int, ip: string, account: string)
    ensures var (t, r) := AfterFailure(cfg, s, now, ip, account);
            var ik, ak := "ip:" + ip, "acct:" + Text.Lower(account);
            var ipHit, acctHit := CountOf(t, ik) != CountOf(s, ik), CountOf(t, ak) != CountOf(s, ak);
            && (r.lockoutApplied <==> ipHit || acctHit) && r.retryAfter >= 0
            && (ipHit ==> ik in t.lockoutUntil && t.lockoutUntil[ik] - now <= r.retryAfter)
            && (acctHit ==> ak in t.lockoutUntil && t.lockoutUntil[ak] - now <= r.retryAfter)
            && (r.retryAfter > 0 ==>
                  || (ipHit && t.lockoutUntil[ik] == now + r.retryAfter)
                  || (acctHit && t.lockoutUntil[ak] == now + r.retryAfter))
  {
    hide Pruned, Duration, Activated, CountOf;
    assert ("ip:" + ip)[0] == 'i' && ("acct:" + Text.Lower(account))[0] == 'a';
    var ik, ak, threshold := IpKey(ip), AccountKey(account), now - cfg.failureWindow;
    var s0 := s.(failuresByIp := s.failuresByIp[ik := Pruned(Get(s.failuresByIp, ik), threshold) + [now]],
                 failuresByAccount := s.failuresByAccount[ak := Pruned(Get(s.failuresByAccount, ak), threshold) + [now]]);
    ActivatedSets(cfg, s0, IpKey(ip), now);
    ActivatedSets(cfg, s0, AccountKey(account), now);
    ActivatedSets(cfg, Activated(cfg, s0, IpKey(ip), now), AccountKey(account), now);
    SameCounts(s, s0);
  }

  lemma ActivatedSets(cfg: Config, s: State, key: string, now: int)
    ensures var t := Activated(cfg, s, key, now);
            && CountOf(t, key) == CountOf(s, key) + 1 && key in t.lockoutUntil
            && t.lockoutUntil[key] == now + Duration(cfg, CountOf(s, key) + 1)
            && (forall k :: k != key ==> CountOf(t, k) == CountOf(s, k) && (k in t.lockoutUntil <==> k in s.lockoutUntil))
            && (forall k :: k != key && k in s.lockoutUntil ==> t.lockoutUntil[k] == s.lockoutUntil[k])
  {
  }

  lemma SameCounts(s: State, t: State)
    requires s.lockoutCount == t.lockoutCount
    ensures forall k :: CountOf(s, k) == CountOf(t, k)
  {
  }

  class AuthAbuseProtector {
    const cfg: Config
    var attemptsByIp: Buckets
    var attemptsByAccount: Buckets
    var failuresByIp: Buckets
    var failuresByAccount: Buckets
    var lockoutUntil: map<string, int>
    var lockoutCount: map<string, nat>

    constructor (cfg: Config)
      ensures this.cfg == cfg && View() == EMPTY
    {
      this.cfg := cfg;
      attemptsByIp, attemptsByAccount, failuresByIp, failuresByAccount := map[], map[], map[], map[];
      lockoutUntil, lockoutCount := map[], map[];
    }

    function View(): State
      reads this
    {
      State(attemptsByIp, attemptsByAccount, failuresByIp, failuresByAccount, lockoutUntil, lockoutCount)
    }

    method Prune(bucket: seq<int>, now: int, windowSeconds: int) returns (kept: seq<int>)
      ensures kept == Pruned(bucket, now - windowSeconds)
    {
      var threshold := now - windowSeconds;
      kept := bucket;
      while kept != [] && kept[0] <= threshold
        invariant Pruned(kept, threshold) == Pruned(bucket, threshold)
        decreases |kept|
      {
        kept := kept[1..];
      }
    }

    method ActivateLockout(key: string, now: int) returns (duration: int)
      modifies this`lockoutCount, this`lockoutUntil
      ensures View() == Activated(cfg, old(View()), key, now)
      ensures duration == Duration(cfg, old(CountOf(View(), key)) + 1)
    {
      var count := (if key in lockoutCount then lockoutCount[key] else 0) + 1;
      lockoutCount := lockoutCount[key := count];
      duration := Duration(cfg, count);
      lockoutUntil := lockoutUntil[key := now + duration];
    }

    method StartAttempt(now: int, ip: string, account: string) returns (d: Decision)
      modifies this`attemptsByIp, this`attemptsByAccount
      ensures (View(), d) == AfterAttempt(cfg, old(View()), now, ip, account)
    {
      var ipKey, accountKey := IpKey(ip), AccountKey(account);
      var keys := [ipKey, accountKey];
      for i := 0 to 2
        invariant forall k :: 0 <= k < i ==> RetrySeconds(View(), keys[k], now) <= 0
      {
        var retry := RetrySeconds(View(), keys[i], now);
        if retry > 0 {
          assert i == 1 ==> RetrySeconds(View(), keys[0], now) <= 0;
          return Decision(false, retry, "temporary_lockout");
        }
      }
      assert keys[0] == ipKey && keys[1] == accountKey;
      var ipAttempts := Prune(Get(attemptsByIp, ipKey), now, cfg.attemptWindow);
      var acctAttempts := Prune(Get(attemptsByAccount, accountKey), now, cfg.attemptWindow);
      attemptsByIp := attemptsByIp[ipKey := ipAttempts];
      attemptsByAccount := attemptsByAccount[accountKey := acctAttempts];
      if |ipAttempts| >= cfg.maxPerIp {
        return Decision(false, cfg.attemptWindow, "rate_limited");
      }
      if |acctAttempts| >= cfg.maxPerAccount {
        return Decision(false, cfg.attemptWindow, "rate_limited");
      }
      attemptsByIp := attemptsByIp[ipKey := ipAttempts + [now]];
      attemptsByAccount := attemptsByAccount[accountKey := acctAttempts + [now]];
      d := Decision(true, 0, "allowed");
    }

    method RecordSuccess(ip: string, account: string)
      modifies this`failuresByIp, this`failuresByAccount, this`lockoutUntil
      ensures View() == AfterSuccess(old(View()), ip, account)
    {
      var ipKey, accountKey := IpKey(ip), AccountKey(account);
      failuresByIp := failuresByIp - {ipKey};
      failuresByAccount := failuresByAccount - {accountKey};
      lockoutUntil := lockoutUntil - {ipKey};
      lockoutUntil := lockoutUntil - {accountKey};
    }

    method RecordFailure(now: int, ip: string, account: string) returns (r: FailureResult)
      modifies this`failuresByIp, this`failuresByAccount, this`lockoutUntil, this`lockoutCount
      ensures (View(), r) == AfterFailure(cfg, old(View()), now, ip, account)
    {
      hide Activated, Pruned, Duration, Max, IpKey, AccountKey;
      var ipKey, accountKey := IpKey(ip), AccountKey(account);
      var ipFailures := Prune(Get(failuresByIp, ipKey), now, cfg.failureWindow);
      var acctFailures := Prune(Get(failuresByAccount, accountKey), now, cfg.failureWindow);
      ipFailures, acctFailures := ipFailures + [now], acctFailures + [now];
      failuresByIp := failuresByIp[ipKey := ipFailures];
      failuresByAccount := failuresByAccount[accountKey := acctFailures];
      var retryAfter, applied := 0, false;
      if |ipFailures| >= cfg.maxFailures {
        var duration := ActivateLockout(ipKey, now);
        retryAfter, applied := Max(retryAfter, duration), true;
      }
      if |acctFailures| >= cfg.maxFailures {
        var duration := ActivateLockout(accountKey, now);
        retryAfter, applied := Max(retryAfter, duration), true;
      }
      r := FailureResult(applied, retryAfter);
    }
  }
}
