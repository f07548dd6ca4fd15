/** The sliding-window rate limiter (services/api/internal/http/middleware/ratelimit.go), for one key.

    Redis keeps two sorted sets for the key, both purged and added to on every request, admitted
    or not.  Time is milliseconds since the epoch, as the limiter reads it. */
module RateLimiter {

  datatype Config = Config(requestsPerWindow: nat, windowNs: nat, burstSize: nat)
  {
    function WindowMs(): nat { windowNs / 1_000_000 }
    function WindowSeconds(): nat { windowNs / 1_000_000_000 }
  }

  /** A sorted set, from member to score, under a key that expires. */
  datatype SortedSet = SortedSet(scores: map<int, int>, expiresAt: int)

  function Read(s: SortedSet, now: int): map<int, int> {
    if now >= s.expiresAt then map[] else s.scores
  }

  function ZRemRangeByScore(scores: map<int, int>, max: int): map<int, int> {
    map member | member in scores && !(0 <= scores[member] <= max) :: scores[member]
  }

  // EXPIRE takes whole seconds; the client rounds a fraction of one second up to one.
  function ExpirySeconds(ns: nat): nat {
    if 0 < ns < 1_000_000_000 then 1 else ns / 1_000_000_000
  }

  // ---------- The specification: the full history of requests ----------

  datatype Request = Request(time: int, admitted: bool)

  function Init(h: seq<Request>): seq<Request>
    requires h != []
  {
    h[..|h| - 1]
  }

  function Final(h: seq<Request>): Request
    requires h != []
  {
    h[|h| - 1]
  }

  /** The distinct milliseconds at which requests were made. */
  function Times(h: seq<Request>): set<int> {
    if h == [] then {} else Times(Init(h)) + {Final(h).time}
  }

  function Recent(times: set<int>, after: int, upTo: int): set<int> {
    set t | t in times && after < t <= upTo
  }

  function InSecond(times: set<int>, second: int): set<int> {
    set t | t in times && t / 1000 == second
  }

  /** What the limiter decides, given the distinct milliseconds of all requests ever made. */
  predicate Admits(c: Config, times: set<int>, now: int) {
    && |InSecond(times, now / 1000)| <= c.burstSize
    && |Recent(times, now - c.WindowMs(), now)| <= c.requestsPerWindow
  }

  function Last(h: seq<Request>): int {
    if h == [] then 0 else Final(h).time
  }

  /** A history that the limiter can have: the clock never goes back, and each request was decided by
      the requests before it. */
  ghost predicate Recorded(c: Config, h: seq<Request>) {
    h == [] ||
    (&& Recorded(c, Init(h)) && Last(Init(h)) <= Final(h).time
     && (Final(h).admitted <==> Admits(c, Times(Init(h)), Final(h).time)))
  }

  // ---------- What the two sets hold, given the times of all requests and the last of them ----------

  ghost predicate WindowOk(c: Config, times: set<int>, last: int, s: SortedSet) {
    && (forall t :: t in s.scores <==> t in times && (t > last - c.WindowMs() || t == last))
    && (forall t :: t in s.scores ==> s.scores[t] == t)
    && (times != {} ==> s.expiresAt == last + 1000 * ExpirySeconds(2 * c.windowNs))
  }

  // Here a request is scored by its second.
  ghost predicate BurstOk(times: set<int>, last: int, s: SortedSet) {
    && (forall t :: t in s.scores <==> t in times && t / 1000 > last / 1000 - 1)
    && (forall t :: t in s.scores ==> s.scores[t] == t / 1000)
    && (times != {} ==> s.expiresAt == last + 5000)
  }

  /** The purged sets are what is left of the full history. */
  ghost predicate Consistent(c: Config, h: seq<Request>, window: SortedSet, burst: SortedSet) {
    && Recorded(c, h) && UpTo(Times(h), Last(h))
    && WindowOk(c, Times(h), Last(h), window) && BurstOk(Times(h), Last(h), burst)
  }

  ghost predicate UpTo(times: set<int>, last: int) {
    last >= 0 && forall t :: t in times ==> 0 <= t <= last
  }

  /** By the time a key has expired, everything in it has left the window. */
  lemma ExpiryOutlivesWindow(ns: nat)
    ensures 1000 * ExpirySeconds(2 * ns) >= ns / 1_000_000
  {
  }

  lemma WindowPurged(c: Config, times: set<int>, last: int, s: SortedSet, now: int)
    requires UpTo(times, last) && last <= now && WindowOk(c, times, last, s)
    ensures ZRemRangeByScore(Read(s, now), now - c.WindowMs()).Keys == Recent(times, now - c.WindowMs(), now)
  {
    ExpiryOutlivesWindow(c.windowNs);
  }

  // The window set after a request, given what the purge left.
  lemma WindowAdded(c: Config, times: set<int>, purged: map<int, int>, now: int, expiresAt: int)
    requires purged.Keys == Recent(times, now - c.WindowMs(), now)
    requires forall t :: t in purged ==> purged[t] == t
    requires forall t :: t in times ==> t <= now
    requires expiresAt == now + 1000 * ExpirySeconds(2 * c.windowNs)
    ensures WindowOk(c, times + {now}, now, SortedSet(purged[now := now], expiresAt))
  {
  }

  lemma WindowStep(c: Config, times: set<int>, last: int, s: SortedSet, now: int)
    requires UpTo(times, last) && last <= now && WindowOk(c, times, last, s)
    ensures var purged := ZRemRangeByScore(Read(s, now), now - c.WindowMs());
            && |purged| == |Recent(times, now - c.WindowMs(), now)|
            && WindowOk(c, times + {now}, now, SortedSet(purged[now := now], now + 1000 * ExpirySeconds(2 * c.windowNs)))
  {
    var purged := ZRemRangeByScore(Read(s, now), now - c.WindowMs());
    WindowPurged(c, times, last, s, now);
    assert |purged| == |purged.Keys|;
    WindowAdded(c, times, purged, now, now + 1000 * ExpirySeconds(2 * c.windowNs));
  }

  lemma BurstPurged(times: set<int>, last: int, s: SortedSet, now: int)
    requires UpTo(times, last) && last <= now && BurstOk(times, last, s)
    ensures ZRemRangeByScore(Read(s, now), now / 1000 - 1).Keys == InSecond(times, now / 1000)
  {
    var purged := ZRemRangeByScore(Read(s, now), now / 1000 - 1);
    forall t ensures t in purged.Keys <==> t in InSecond(times, now / 1000) {
      if t in times && t / 1000 == now / 1000 { SameSecond(t, last, now); }
    }
  }

  lemma SameSecond(t: int, last: int, now: int)
    requires t <= last <= now && t / 1000 == now / 1000
    ensures last / 1000 == now / 1000 && now < last + 1000
  {
  }

  // The burst set after a request, given what the purge left.
  lemma BurstAdded(times: set<int>, purged: map<int, int>, now: int)
    requires purged.Keys == InSecond(times, now / 1000)
    requires forall t :: t in purged ==> purged[t] == t / 1000
    requires forall t :: t in times ==> t <= now
    ensures BurstOk(times + {now}, now, SortedSet(purged[now := now / 1000], now + 5000))
  {
    forall t | t in times ensures t / 1000 <= now / 1000 { NotLater(t, now); }
  }

  lemma NotLater(t: int, now: int)
    requires t <= now
    ensures t / 1000 <= now / 1000
  {
  }

  lemma BurstStep(times: set<int>, last: int, s: SortedSet, now: int)
    requires UpTo(times, last) && last <= now && BurstOk(times, last, s)
    ensures var purged := ZRemRangeByScore(Read(s, now), now / 1000 - 1);
            && |purged| == |InSecond(times, now / 1000)|
            && BurstOk(times + {now}, now, SortedSet(purged[now := now / 1000], now + 5000))
  {
    BurstPurged(times, last, s, now);
    var purged := ZRemRangeByScore(Read(s, now), now / 1000 - 1);
    assert |purged| == |purged.Keys|;
    BurstAdded(times, purged, now);
  }

  /** The checks at the end of allow: the burst limit first, then the window limit. */
  method Decide(c: Config, count: int, burstCount: int, now: int) returns (allowed: bool, remaining: int, reset: int)
    requires count >= 0 && burstCount >= 0
    ensures allowed <==> burstCount <= c.burstSize && count <= c.requestsPerWindow
    ensures remaining == (if allowed then c.requestsPerWindow - count else 0) && remaining >= 0
    ensures reset == now / 1000 + if burstCount > c.burstSize then 1 else c.WindowSeconds()
  {
    if burstCount > c.burstSize {
      return false, 0, now / 1000 + 1;
    }
    if count > c.requestsPerWindow {
      return false, 0, now / 1000 + c.WindowSeconds();
    }
    remaining := c.requestsPerWindow - count;
    if remaining < 0 {
      remaining := 0;
    }
    allowed, reset := true, now / 1000 + c.WindowSeconds();
  }

  class RateLimiter {
    const config: Config
    var window: SortedSet
    var burst: SortedSet

    ghost var history: seq<Request>

    ghost predicate Valid()
      reads this
    {
      Consistent(config, history, window, burst)
    }

    constructor (config: Config)
      ensures Valid() && history == [] && this.config == config
    {
      this.config := config;
      window, burst := SortedSet(map[], 0), SortedSet(map[], 0);
      history := [];
    }

    /** Purging and expiry lose nothing: the decision is the one the full history calls for, and the
        request is recorded whatever the decision. */
    method Allow(now: int) returns (allowed: bool, remaining: int, reset: int)
      requires Valid() && Last(history) <= now  // the clock does not go back
      modifies this
      ensures Valid()
      ensures history == old(history) + [Request(now, allowed)]
      ensures allowed <==> Admits(config, old(Times(history)), now)
      ensures remaining == if allowed then config.requestsPerWindow - |Recent(old(Times(history)), now - config.WindowMs(), now)| else 0
      ensures remaining >= 0
      ensures reset == now / 1000 + if |InSecond(old(Times(history)), now / 1000)| > config.burstSize then 1 else config.WindowSeconds()
    {
      var count, burstCount := Touch(now, Times(history), Last(history));
      allowed, remaining, reset := Decide(config, count, burstCount, now);
      HistoryExtends(config, history, Request(now, allowed), window, burst);
      history := history + [Request(now, allowed)];
    }

    // The transaction: both sets, whatever the decision will be.
    method Touch(now: int, ghost times: set<int>, ghost last: int) returns (count: int, burstCount: int)
      requires UpTo(times, last) && last <= now && WindowOk(config, times, last, window) && BurstOk(times, last, burst)
      modifies this`window, this`burst
      ensures count == |Recent(times, now - config.WindowMs(), now)| && burstCount == |InSecond(times, now / 1000)|
      ensures WindowOk(config, times + {now}, now, window) && BurstOk(times + {now}, now, burst)
    {
      count := TouchWindow(now, times, last);
      burstCount := TouchBurst(now, times, last);
    }

    // The transaction's commands on the window set: purge, count, add, extend the expiry.
    method TouchWindow(now: int, ghost times: set<int>, ghost last: int) returns (count: int)
      requires UpTo(times, last) && last <= now && WindowOk(config, times, last, window)
      modifies this`window
      ensures count == |Recent(times, now - config.WindowMs(), now)|
      ensures WindowOk(config, times + {now}, now, window)
    {
      WindowStep(config, times, last, window, now);
      var inWindow := ZRemRangeByScore(Read(window, now), now - config.WindowMs());
      count := |inWindow|;
      window := SortedSet(inWindow[now := now], now + 1000 * ExpirySeconds(2 * config.windowNs));
    }

    // Its commands on the burst set, which scores each request by its second.
    method TouchBurst(now: int, ghost times: set<int>, ghost last: int) returns (count: int)
      requires UpTo(times, last) && last <= now && BurstOk(times, last, burst)
      modifies this`burst
      ensures count == |InSecond(times, now / 1000)|
      ensures BurstOk(times + {now}, now, burst)
    {
      BurstStep(times, last, burst, now);
      var burstSecond := now / 1000;
      var inBurst := ZRemRangeByScore(Read(burst, now), burstSecond - 1);
      count := |inBurst|;
      burst := SortedSet(inBurst[now := burstSecond], now + 5000);
    }
  }

  lemma HistoryExtends(c: Config, h: seq<Request>, r: Request, window: SortedSet, burst: SortedSet)
    requires Recorded(c, h) && UpTo(Times(h), Last(h)) && Last(h) <= r.time
    requires r.admitted <==> Admits(c, Times(h), r.time)
    requires WindowOk(c, Times(h) + {r.time}, r.time, window) && BurstOk(Times(h) + {r.time}, r.time, burst)
    ensures Consistent(c, h + [r], window, burst)
  {
    assert Init(h + [r]) == h;
  }

  // ---------- What the limiter guarantees ----------

  function AdmittedTimes(h: seq<Request>): set<int> {
    if h == [] then {}
    else AdmittedTimes(Init(h)) + if Final(h).admitted then {Final(h).time} else {}
  }

  function AdmittedIn(h: seq<Request>, after: int, upTo: int): set<int> {
    set t | t in AdmittedTimes(h) && after < t <= upTo
  }

  lemma SubsetSize<T>(a: set<T>, b: set<T>)
    requires a <= b
    ensures |a| <= |b|
  {
    assert b == a + (b - a);
  }

  lemma {:induction false} TimesUpToLast(c: Config, h: seq<Request>)
    requires Recorded(c, h)
    ensures UpTo(Times(h), Last(h)) && AdmittedTimes(h) <= Times(h)
  {
    if h != [] { TimesUpToLast(c, Init(h)); }
  }

  /** Of some admitted requests, the latest: it was decided by a history in which all others appear. */
  lemma {:induction false} LatestAdmitted(c: Config, h: seq<Request>, some: set<int>) returns (before: seq<Request>, now: int)
    requires Recorded(c, h) && some <= AdmittedTimes(h) && some != {}
    ensures now in some && Recorded(c, before) && Admits(c, Times(before), now)
    ensures forall t :: t in some ==> t <= now && (t == now || t in Times(before))
  {
    TimesUpToLast(c, h);
    before, now := Init(h), Final(h).time;
    TimesUpToLast(c, before);
    if !(Final(h).admitted && now in some) {
      before, now := LatestAdmitted(c, before, some);
    }
  }

  /** In any window of the configured length, wherever it starts, the admitted requests fall into at
      most one more distinct millisecond than the configured number of requests. */
  lemma AdmittedPerWindow(c: Config, h: seq<Request>, end: int)
    requires Recorded(c, h)
    ensures |AdmittedIn(h, end - c.WindowMs(), end)| <= c.requestsPerWindow + 1
  {
    var inside := AdmittedIn(h, end - c.WindowMs(), end);
    if inside != {} {
      var before, now := LatestAdmitted(c, h, inside);
      SubsetSize(inside, Recent(Times(before), now - c.WindowMs(), now) + {now});
    }
  }

  /** In any calendar second they fall into at most one more than the burst size. */
  lemma AdmittedPerSecond(c: Config, h: seq<Request>, second: int)
    requires Recorded(c, h)
    ensures |set t | t in AdmittedTimes(h) && t / 1000 == second| <= c.burstSize + 1
  {
    var inside := set t | t in AdmittedTimes(h) && t / 1000 == second;
    if inside != {} {
      var before, now := LatestAdmitted(c, h, inside);
      SubsetSize(inside, InSecond(Times(before), second) + {now});
    }
  }

  /** After a silence of a whole window that also leaves the current second, the next request is admitted. */
  lemma SilenceReadmits(c: Config, h: seq<Request>, now: int)
    requires Recorded(c, h)
    requires h != [] ==> Last(h) + c.WindowMs() <= now && Last(h) / 1000 < now / 1000
    ensures Admits(c, Times(h), now)
  {
    TimesUpToLast(c, h);
    assert Recent(Times(h), now - c.WindowMs(), now) == {};
    assert InSecond(Times(h), now / 1000) == {};
  }
}
