/** How far the rate limiter lets requests go past its configured numbers, exactly, for every
    configuration (services/api/internal/http/middleware/ratelimit.go). */
module RateBounds {
  import opened RateLimiter

  function Min(a: nat, b: nat): nat { if a < b then a else b }

  function Max(a: nat, b: nat): nat { if a < b then b else a }

  predicate Inside(t: int, lo: int, n: nat) {
    lo <= t < lo + n
  }

  /** The n milliseconds from lo on. */
  function Interval(lo: int, n: nat): set<int> {
    set t | lo <= t < lo + n && Inside(t, lo, n)
  }

  lemma {:induction false} IntervalSize(lo: int, n: nat)
    ensures |Interval(lo, n)| == n
  {
    if n > 0 {
      IntervalSize(lo, n - 1);
      assert Interval(lo, n) == Interval(lo, n - 1) + {lo + n - 1};
    }
  }

  lemma InIntervalSize(times: set<int>, lo: int, n: nat)
    requires times <= Interval(lo, n)
    ensures |times| <= n
  {
    IntervalSize(lo, n);
    SubsetSize(times, Interval(lo, n));
  }

  // ---------- At most m in each block of p milliseconds ----------

  /** What n milliseconds hold at m for each block of p, the last one perhaps cut short. */
  function Blocks(n: nat, p: nat, m: nat): nat
    requires p > 0
    decreases n
  {
    if n <= p then Min(n, m) else m + Blocks(n - p, p, m)
  }

  lemma AtLeastOnce(d: int, p: nat)
    ensures d >= 1 ==> d * p >= p
    ensures d <= -1 ==> d * p <= -(p as int)
  {
    if d >= 1 { assert d * p == (d - 1) * p + p; }
    if d <= -1 { assert d * p == (d + 1) * p - p; }
  }

  lemma Position(q: int, p: nat, y: nat)
    requires y < p
    ensures (q * p + y) / p == q && (q * p + y) % p == y
  {
    var t := q * p + y;
    var d := t / p - q;
    assert t == (t / p) * p + t % p && d * p == (t / p) * p - q * p;
    AtLeastOnce(d, p);
  }

  lemma {:induction false} BlocksClosed(n: nat, p: nat, m: nat)
    requires 0 < m <= p
    ensures Blocks(n, p, m) == (n / p) * m + Min(n % p, m)
    decreases n
  {
    if n < p {
      Position(0, p, n);
    } else if n == p {
      Position(1, p, 0);
    } else {
      var q, y := n / p, n % p;
      assert (q - 1) * p + y == n - p;
      Position(q - 1, p, y);
      BlocksClosed(n - p, p, m);
      OneMore(q, m);
    }
  }

  lemma OneMore(q: int, m: int)
    ensures (q - 1) * m + m == q * m
  {
  }

  // Consecutive blocks from lo on hold at most m each.
  ghost predicate BlocksOk(times: set<int>, lo: int, n: nat, p: nat, m: nat)
    requires p > 0
    decreases n
  {
    n == 0 || (|times * Interval(lo, p)| <= m && (n > p ==> BlocksOk(times, lo + p, n - p, p, m)))
  }

  lemma {:induction false} BlockBound(times: set<int>, lo: int, n: nat, p: nat, m: nat)
    requires 0 < m <= p && times <= Interval(lo, n) && BlocksOk(times, lo, n, p, m)
    ensures |times| <= Blocks(n, p, m)
    decreases n
  {
    if n == 0 {
      assert times == {};
    } else if n <= p {
      InIntervalSize(times, lo, n);
      assert times * Interval(lo, p) == times;
    } else {
      var first, rest := times * Interval(lo, p), times - Interval(lo, p);
      BlocksRest(times, lo, lo + p, n - p, p, m);
      BlockBound(rest, lo + p, n - p, p, m);
      assert times == first + rest;
    }
  }

  lemma {:induction false} BlocksRest(times: set<int>, lo: int, from: int, n: nat, p: nat, m: nat)
    requires p > 0 && BlocksOk(times, from, n, p, m) && lo + p <= from
    ensures BlocksOk(times - Interval(lo, p), from, n, p, m)
    decreases n
  {
    if n > 0 {
      SubsetSize((times - Interval(lo, p)) * Interval(from, p), times * Interval(from, p));
      if n > p { BlocksRest(times, lo, from + p, n - p, p, m); }
    }
  }

  /** The first m of every p milliseconds, over n milliseconds from lo on. */
  function Comb(lo: int, n: nat, p: nat, m: nat): set<int>
    requires p > 0
    decreases n
  {
    if n <= p then Interval(lo, Min(n, m)) else Interval(lo, m) + Comb(lo + p, n - p, p, m)
  }

  lemma {:induction false} CombInside(lo: int, n: nat, p: nat, m: nat)
    requires 0 < m <= p
    ensures Comb(lo, n, p, m) <= Interval(lo, n)
    decreases n
  {
    if n > p { CombInside(lo + p, n - p, p, m); }
  }

  lemma CombAfter(lo: int, n: nat, p: nat, m: nat)
    requires 0 < m <= p < n
    ensures Interval(lo, m) !! Comb(lo + p, n - p, p, m)
  {
    CombInside(lo + p, n - p, p, m);
  }

  lemma {:induction false} CombSize(lo: int, n: nat, p: nat, m: nat)
    requires 0 < m <= p
    ensures |Comb(lo, n, p, m)| == Blocks(n, p, m)
    decreases n
  {
    if n <= p {
      IntervalSize(lo, Min(n, m));
    } else {
      IntervalSize(lo, m);
      CombSize(lo + p, n - p, p, m);
      CombAfter(lo, n, p, m);
      Disjoint(Interval(lo, m), Comb(lo + p, n - p, p, m));
    }
  }

  lemma Disjoint(x: set<int>, y: set<int>)
    requires x !! y
    ensures |x + y| == |x| + |y|
  {
  }

  // A millisecond of the comb lies among the first m of its block.
  lemma {:induction false} CombTeeth(q: int, n: nat, p: nat, m: nat, t: int)
    requires 0 < m <= p && t in Comb(q * p, n, p, m)
    ensures q * p <= t && t % p < m
    decreases n
  {
    if t in Interval(q * p, m) {
      Position(q, p, t - q * p);
    } else {
      assert q * p + p == (q + 1) * p;
      CombTeeth(q + 1, n - p, p, m, t);
    }
  }

  // ---------- Histories in which everything is admitted ----------

  ghost predicate AllowedAt(c: Config, times: set<int>, t: int) {
    && t >= 0
    && |InSecond(times, t / 1000)| <= c.burstSize + 1
    && |Recent(times, t - c.WindowMs(), t)| <= c.requestsPerWindow + 1
  }

  /** The times before `end` obey the limits, each after the earlier ones. */
  ghost predicate Allowed(c: Config, times: set<int>, end: nat) {
    end == 0 || ((end - 1 in times ==> AllowedAt(c, times, end - 1)) && Allowed(c, times, end - 1))
  }

  lemma AllowedAtStays(c: Config, times: set<int>, some: set<int>, t: int)
    requires AllowedAt(c, times, t) && some <= times
    ensures AllowedAt(c, some, t)
  {
    SubsetSize(InSecond(some, t / 1000), InSecond(times, t / 1000));
    SubsetSize(Recent(some, t - c.WindowMs(), t), Recent(times, t - c.WindowMs(), t));
  }

  lemma {:induction false} AllowedStays(c: Config, times: set<int>, some: set<int>, end: nat)
    requires Allowed(c, times, end) && some <= times
    ensures Allowed(c, some, end)
  {
    if end > 0 {
      if end - 1 in some { AllowedAtStays(c, times, some, end - 1); }
      AllowedStays(c, times, some, end - 1);
    }
  }

  lemma Without(x: set<int>, t: int)
    requires t in x
    ensures |x - {t}| == |x| - 1
  {
  }

  lemma LatestAdmits(c: Config, times: set<int>, last: int)
    requires AllowedAt(c, times, last) && last in times
    ensures Admits(c, times - {last}, last)
  {
    var second, recent := InSecond(times, last / 1000), Recent(times, last - c.WindowMs(), last);
    assert InSecond(times - {last}, last / 1000) == second - {last};
    Without(second, last);
    assert Recent(times - {last}, last - c.WindowMs(), last) == recent - {last};
    if c.WindowMs() > 0 { Without(recent, last); } else { assert recent == {}; }
  }

  lemma ReplayOne(c: Config, before: seq<Request>, rest: set<int>, last: nat)
    requires Recorded(c, before) && Times(before) == rest && AdmittedTimes(before) == rest && Last(before) <= last
    requires Admits(c, rest, last)
    ensures var h := before + [Request(last, true)];
            Recorded(c, h) && Times(h) == rest + {last} && AdmittedTimes(h) == rest + {last} && Last(h) == last
  {
    assert Init(before + [Request(last, true)]) == before;
  }

  /** One request at each of such times, in order, is a history of the limiter that admits them all. */
  lemma {:induction false} Replay(c: Config, times: set<int>, end: nat) returns (h: seq<Request>)
    requires Allowed(c, times, end) && times <= Interval(0, end)
    ensures Recorded(c, h) && Times(h) == times && AdmittedTimes(h) == times && Last(h) <= end
    decreases end
  {
    if end == 0 {
      assert times == {};
      h := [];
    } else {
      var last := end - 1;
      var rest := times - {last};
      AllowedStays(c, times, rest, last);
      h := Replay(c, rest, last);
      if last in times {
        LatestAdmits(c, times, last);
        ReplayOne(c, h, rest, last);
        h := h + [Request(last, true)];
      }
      assert times == if last in times then rest + {last} else rest;
    }
  }

  lemma {:induction false} Chosen(times: set<int>, end: nat, n: nat) returns (some: set<int>)
    requires times <= Interval(0, end) && n <= |times|
    ensures some <= times && |some| == n
    decreases end
  {
    some := times;
    if end == 0 {
      assert times == {};
    } else if n < |times| {
      some := Chosen(times - {end - 1}, end - 1, n);
    }
  }

  // ---------- The window ----------

  // The most distinct milliseconds of one second that are admitted.
  function PerSecond(c: Config): nat {
    Min(c.burstSize + 1, 1000)
  }

  // A window of w that has `a` milliseconds before its first whole second.
  function Aligned(w: nat, a: nat, m: nat): nat
    requires a <= w
  {
    Min(a, m) + Blocks(w - a, 1000, m)
  }

  // How long such a window must start before a second to hold the most.
  function BestStart(w: nat, m: nat): (a: nat)
    requires m <= 1000
    ensures a <= w && a <= m
  {
    if w < 1000 || w % 1000 >= m then Min(w % 1000, m) else m
  }

  /** The most milliseconds that a window of w can hold at m for each calendar second; the window may
      start in the middle of a second. */
  function WindowCapacity(w: nat, m: nat): nat
    requires m <= 1000
  {
    Aligned(w, BestStart(w, m), m)
  }

  // Aligned, in numbers: q whole seconds and r milliseconds.
  lemma AlignedClosed(q: nat, r: nat, a: nat, m: nat)
    requires 0 < m <= 1000 && r < 1000 && a <= 1000 && a <= 1000 * q + r
    ensures Aligned(1000 * q + r, a, m) ==
            if a <= r then q * m + Min(a, m) + Min(r - a, m)
            else (q - 1) * m + Min(a, m) + (if r == 0 && a == 1000 then 0 else Min(1000 + r - a, m))
  {
    var n := 1000 * q + r - a;
    BlocksClosed(n, 1000, m);
    if a <= r {
      Position(q, 1000, r - a);
    } else if r == 0 && a == 1000 {
      Position(q - 1, 1000, 0);
    } else {
      Position(q - 1, 1000, 1000 + r - a);
    }
  }

  /** The capacity in closed form. */
  lemma CapacityClosed(q: nat, r: nat, m: nat)
    requires 0 < m <= 1000 && r < 1000
    ensures WindowCapacity(1000 * q + r, m) ==
            q * m + if q == 0 then Min(r, 2 * m) else Max(Min(r, 2 * m), Min(1000 + r - m, m))
  {
    Position(q, 1000, r);
    AlignedClosed(q, r, BestStart(1000 * q + r, m), m);
    OneMore(q, m);
  }

  lemma AlignedAtMost(w: nat, a: nat, m: nat)
    requires a <= w && a <= 1000 && 0 < m <= 1000
    ensures Aligned(w, a, m) <= WindowCapacity(w, m)
  {
    var q, r := w / 1000, w % 1000;
    CapacityClosed(q, r, m);
    AlignedClosed(q, r, a, m);
    OneMore(q, m);
  }

  ghost predicate SecondsOk(times: set<int>, m: nat) {
    forall second :: |InSecond(times, second)| <= m
  }

  lemma {:induction false} SecondBlocks(times: set<int>, second: int, n: nat, m: nat)
    requires SecondsOk(times, m)
    ensures BlocksOk(times, 1000 * second, n, 1000, m)
    decreases n
  {
    if n > 0 {
      assert times * Interval(1000 * second, 1000) == InSecond(times, second);
      if n > 1000 { SecondBlocks(times, second + 1, n - 1000, m); }
    }
  }

  /** No window holds more, wherever it starts. */
  lemma WindowBound(times: set<int>, lo: int, w: nat, m: nat)
    requires 0 < m <= 1000 && SecondsOk(times, m) && times <= Interval(lo, w)
    ensures |times| <= WindowCapacity(w, m)
  {
    var next := lo / 1000 + 1;
    var a := Min(w, 1000 * next - lo);
    var first, rest := times * Interval(lo, a), times - Interval(lo, a);
    assert times == first + rest;
    InIntervalSize(first, lo, a);
    SubsetSize(first, InSecond(times, lo / 1000));
    if a == w {
      assert rest == {};
    } else {
      forall second ensures |InSecond(rest, second)| <= m { SubsetSize(InSecond(rest, second), InSecond(times, second)); }
      SecondBlocks(rest, next, w - a, m);
      BlockBound(rest, 1000 * next, w - a, 1000, m);
    }
    AlignedAtMost(w, a, m);
  }

  // The last min(a, m) milliseconds of interest before second 1, and the first m of every later second.
  function Busiest(w: nat, a: nat, m: nat): set<int>
    requires a <= w
  {
    Interval(1000 - a, Min(a, m)) + Comb(1000, w - a, 1000, m)
  }

  lemma BusiestSize(w: nat, a: nat, m: nat)
    requires a <= w && a <= 1000 && 0 < m <= 1000
    ensures |Busiest(w, a, m)| == Aligned(w, a, m)
  {
    IntervalSize(1000 - a, Min(a, m));
    CombSize(1000, w - a, 1000, m);
    CombInside(1000, w - a, 1000, m);
    Disjoint(Interval(1000 - a, Min(a, m)), Comb(1000, w - a, 1000, m));
  }

  lemma BusiestInside(w: nat, a: nat, m: nat)
    requires a <= w && a <= 1000 && 0 < m <= 1000
    ensures Busiest(w, a, m) <= Interval(1000 - a, w)
  {
    CombInside(1000, w - a, 1000, m);
  }

  lemma BusiestSeconds(w: nat, a: nat, m: nat, second: int)
    requires a <= w && a <= 1000 && 0 < m <= 1000
    ensures |InSecond(Busiest(w, a, m), second)| <= m
  {
    var inside := InSecond(Busiest(w, a, m), second);
    CombInside(1000, w - a, 1000, m);
    if second == 0 {
      InIntervalSize(inside, 1000 - a, Min(a, m));
    } else {
      forall t | t in inside ensures t in Interval(1000 * second, m) { CombTeeth(1, w - a, 1000, m, t); }
      InIntervalSize(inside, 1000 * second, m);
    }
  }

  /** And some window holds that many. */
  lemma BusiestWindow(w: nat, m: nat) returns (lo: nat, times: set<int>)
    requires 0 < m <= 1000
    ensures times <= Interval(lo, w) && |times| == WindowCapacity(w, m) && SecondsOk(times, m)
  {
    var a := BestStart(w, m);
    lo, times := 1000 - a, Busiest(w, a, m);
    BusiestSize(w, a, m);
    BusiestInside(w, a, m);
    forall second ensures |InSecond(times, second)| <= m { BusiestSeconds(w, a, m, second); }
  }

  /** More requests are admitted in some window than configured. */
  ghost predicate ExceedsWindow(c: Config, h: seq<Request>, end: int) {
    Recorded(c, h) && |AdmittedIn(h, end - c.WindowMs(), end)| > c.requestsPerWindow
  }

  lemma {:induction false} FewAllowed(c: Config, most: set<int>, some: set<int>, end: nat)
    requires SecondsOk(most, PerSecond(c)) && some <= most && |some| <= c.requestsPerWindow + 1
    ensures Allowed(c, some, end)
  {
    if end > 0 {
      var t := end - 1;
      SubsetSize(InSecond(some, t / 1000), InSecond(most, t / 1000));
      SubsetSize(Recent(some, t - c.WindowMs(), t), some);
      FewAllowed(c, most, some, t);
    }
  }

  lemma ExceedsFrom(c: Config, h: seq<Request>, lo: int)
    requires Recorded(c, h) && AdmittedTimes(h) <= Interval(lo, c.WindowMs())
    requires |AdmittedTimes(h)| == c.requestsPerWindow + 1
    ensures var end := lo + c.WindowMs() - 1;
            ExceedsWindow(c, h, end) && |AdmittedIn(h, end - c.WindowMs(), end)| == c.requestsPerWindow + 1
  {
    var end := lo + c.WindowMs() - 1;
    assert AdmittedIn(h, end - c.WindowMs(), end) == AdmittedTimes(h);
  }

  lemma WindowExceeded(c: Config) returns (h: seq<Request>, end: int)
    requires c.requestsPerWindow < WindowCapacity(c.WindowMs(), PerSecond(c))
    ensures ExceedsWindow(c, h, end) && |AdmittedIn(h, end - c.WindowMs(), end)| == c.requestsPerWindow + 1
  {
    var w := c.WindowMs();
    var lo, most := BusiestWindow(w, PerSecond(c));
    var some := Chosen(most, lo + w, c.requestsPerWindow + 1);
    FewAllowed(c, most, some, lo + w);
    h := Replay(c, some, lo + w);
    end := lo + w - 1;
    ExceedsFrom(c, h, lo);
  }

  lemma AdmittedSeconds(c: Config, h: seq<Request>, after: int, upTo: int)
    requires Recorded(c, h)
    ensures SecondsOk(AdmittedIn(h, after, upTo), PerSecond(c))
  {
    forall second ensures |InSecond(AdmittedIn(h, after, upTo), second)| <= PerSecond(c) {
      var inside := InSecond(AdmittedIn(h, after, upTo), second);
      AdmittedPerSecond(c, h, second);
      SubsetSize(inside, set t | t in AdmittedTimes(h) && t / 1000 == second);
      InIntervalSize(inside, 1000 * second, 1000);
    }
  }

  /** The limiter admits more than RequestsPerWindow distinct milliseconds in some window, and then one
      more, exactly when that number is below what the window can hold at BurstSize + 1 a second. */
  lemma WindowExceededIff(c: Config)
    ensures (exists h, end :: ExceedsWindow(c, h, end)) <==> c.requestsPerWindow < WindowCapacity(c.WindowMs(), PerSecond(c))
  {
    if c.requestsPerWindow < WindowCapacity(c.WindowMs(), PerSecond(c)) {
      var h, end := WindowExceeded(c);
    }
    forall h, end | ExceedsWindow(c, h, end) ensures c.requestsPerWindow < WindowCapacity(c.WindowMs(), PerSecond(c)) {
      var inside := AdmittedIn(h, end - c.WindowMs(), end);
      AdmittedSeconds(c, h, end - c.WindowMs(), end);
      assert inside <= Interval(end - c.WindowMs() + 1, c.WindowMs());
      WindowBound(inside, end - c.WindowMs() + 1, c.WindowMs(), PerSecond(c));
    }
  }

  // ---------- The second ----------

  /** The most milliseconds of a second that can be admitted at k for each window of w. */
  function SecondCapacity(w: nat, k: nat): nat {
    if w == 0 then 1000 else Blocks(1000, w, Min(k, w))
  }

  ghost predicate ExceedsSecond(c: Config, h: seq<Request>, second: int) {
    Recorded(c, h) && |InSecond(AdmittedTimes(h), second)| > c.burstSize
  }

  lemma OneWindow(c: Config, h: seq<Request>, times: set<int>, lo: int, w: nat)
    requires Recorded(c, h) && times <= AdmittedTimes(h) && w == c.WindowMs()
    ensures |times * Interval(lo, w)| <= Min(c.requestsPerWindow + 1, w)
  {
    var inside := times * Interval(lo, w);
    InIntervalSize(inside, lo, w);
    AdmittedPerWindow(c, h, lo + w - 1);
    SubsetSize(inside, AdmittedIn(h, lo + w - 1 - w, lo + w - 1));
  }

  lemma {:induction false} WindowBlocks(c: Config, h: seq<Request>, times: set<int>, lo: int, n: nat, w: nat, k: nat)
    requires Recorded(c, h) && times <= AdmittedTimes(h) && w == c.WindowMs() > 0 && k == Min(c.requestsPerWindow + 1, w)
    ensures BlocksOk(times, lo, n, w, k)
    decreases n
  {
    if n > 0 {
      OneWindow(c, h, times, lo, w);
      if n > w { WindowBlocks(c, h, times, lo + w, n - w, w, k); }
    }
  }

  // Two teeth less than a block apart: the earlier one lies in the same block or near the start of
  // the one before.
  lemma TeethApart(w: nat, k: nat, t: int, x: int)
    requires 0 < k <= w && x % w < k && t - w < x <= t
    ensures var base := t - t % w; base - w + t % w + 1 <= x < base - w + k || base <= x < base + t % w + 1
  {
    var base := t - t % w;
    assert base == (t / w) * w;
    if x < base {
      assert (t / w - 1) * w == base - w;
      Position(t / w - 1, w, x - (base - w));
    }
  }

  // The comb's teeth in any w consecutive milliseconds number at most k.
  lemma CombWindow(times: set<int>, w: nat, k: nat, t: int)
    requires 0 < k <= w && t % w < k && forall x :: x in times ==> x % w < k
    ensures |Recent(times, t - w, t)| <= k
  {
    var y := t % w;
    var left, right := Interval(t - w + 1, k - 1 - y), Interval(t - y, y + 1);
    var recent := Recent(times, t - w, t);
    forall x | x in recent ensures x in left + right { TeethApart(w, k, t, x); }
    InUnionSize(recent, t - w + 1, k - 1 - y, t - y, y + 1);
  }

  lemma InUnionSize(times: set<int>, lo1: int, n1: nat, lo2: int, n2: nat)
    requires times <= Interval(lo1, n1) + Interval(lo2, n2)
    ensures |times| <= n1 + n2
  {
    var first, rest := times * Interval(lo1, n1), times - Interval(lo1, n1);
    InIntervalSize(first, lo1, n1);
    InIntervalSize(rest, lo2, n2);
    assert times == first + rest;
  }

  lemma {:induction false} CombAllowed(c: Config, k: nat, most: set<int>, some: set<int>, end: nat)
    requires 0 < k <= c.WindowMs() && k <= c.requestsPerWindow + 1 && forall t :: t in most ==> t % c.WindowMs() < k
    requires some <= most && |some| <= c.burstSize + 1
    ensures Allowed(c, some, end)
  {
    if end > 0 {
      var t := end - 1;
      if t in some {
        SubsetSize(InSecond(some, t / 1000), some);
        CombWindow(some, c.WindowMs(), k, t);
      }
      CombAllowed(c, k, most, some, t);
    }
  }

  lemma {:induction false} NoWindowAllowed(c: Config, some: set<int>, end: nat)
    requires c.WindowMs() == 0 && |some| <= c.burstSize + 1
    ensures Allowed(c, some, end)
  {
    if end > 0 {
      SubsetSize(InSecond(some, (end - 1) / 1000), some);
      assert Recent(some, end - 1, end - 1) == {};
      NoWindowAllowed(c, some, end - 1);
    }
  }

  // Any part of a busiest second is allowed, as far as the burst size goes.
  lemma BusiestSecond(c: Config, n: nat) returns (some: set<int>)
    requires n <= c.burstSize + 1 && n <= SecondCapacity(c.WindowMs(), c.requestsPerWindow + 1)
    ensures some <= Interval(0, 1000) && |some| == n && Allowed(c, some, 1000)
  {
    var w := c.WindowMs();
    if w == 0 {
      IntervalSize(0, 1000);
      some := Chosen(Interval(0, 1000), 1000, n);
      NoWindowAllowed(c, some, 1000);
    } else {
      var k := Min(c.requestsPerWindow + 1, w);
      var most := Comb(0, 1000, w, k);
      CombSize(0, 1000, w, k);
      CombInside(0, 1000, w, k);
      forall t | t in most ensures t % w < k { CombTeeth(0, 1000, w, k, t); }
      some := Chosen(most, 1000, n);
      CombAllowed(c, k, most, some, 1000);
    }
  }

  lemma SecondExceeded(c: Config) returns (h: seq<Request>)
    requires c.burstSize < SecondCapacity(c.WindowMs(), c.requestsPerWindow + 1)
    ensures ExceedsSecond(c, h, 0) && |InSecond(AdmittedTimes(h), 0)| == c.burstSize + 1
  {
    var some := BusiestSecond(c, c.burstSize + 1);
    h := Replay(c, some, 1000);
    assert InSecond(some, 0) == some;
  }

  /** Likewise it admits more than BurstSize distinct milliseconds in some calendar second, and then one
      more, exactly when that number is below what a second can hold at RequestsPerWindow + 1 a window. */
  lemma SecondExceededIff(c: Config)
    ensures (exists h, second :: ExceedsSecond(c, h, second)) <==>
            c.burstSize < SecondCapacity(c.WindowMs(), c.requestsPerWindow + 1)
  {
    var w, k := c.WindowMs(), c.requestsPerWindow + 1;
    if c.burstSize < SecondCapacity(w, k) {
      var h := SecondExceeded(c);
    }
    forall h, second | ExceedsSecond(c, h, second) ensures c.burstSize < SecondCapacity(w, k) {
      var inside := InSecond(AdmittedTimes(h), second);
      InIntervalSize(inside, 1000 * second, 1000);
      if w > 0 {
        WindowBlocks(c, h, inside, 1000 * second, 1000, w, Min(k, w));
        BlockBound(inside, 1000 * second, 1000, w, Min(k, w));
      }
    }
  }

  const DEFAULT := Config(100, 60_000_000_000, 10)
  const STRICT := Config(10, 60_000_000_000, 3)

  /** Both shipped configurations are exceeded, in the window and in the second. */
  lemma ShippedConfigurations(c: Config)
    requires c == DEFAULT || c == STRICT
    ensures exists h, end :: ExceedsWindow(c, h, end)
    ensures exists h, second :: ExceedsSecond(c, h, second)
  {
    assert c.WindowMs() == 60_000;
    WindowExceededIff(c);
    SecondExceededIff(c);
    CapacityClosed(60, 0, PerSecond(c));
  }

  // ---------- One millisecond ----------

  function Repeated(n: nat, r: Request): (h: seq<Request>)
    ensures |h| == n
  {
    if n == 0 then [] else Repeated(n - 1, r) + [r]
  }

  /** Requests of one millisecond are one member of the sets: repeating the last request any number of
      times adds nothing to them, so that all repetitions are admitted or all are refused. */
  lemma {:induction false} RepeatsDecidedAlike(c: Config, h: seq<Request>, n: nat)
    requires Recorded(c, h) && h != []
    ensures var r := Request(Final(h).time, Admits(c, Times(h), Final(h).time));
            && Recorded(c, h + Repeated(n, r)) && Times(h + Repeated(n, r)) == Times(h)
            && Last(h + Repeated(n, r)) == Final(h).time
  {
    var r := Request(Final(h).time, Admits(c, Times(h), Final(h).time));
    if n == 0 {
      assert h + [] == h;
    } else {
      RepeatsDecidedAlike(c, h, n - 1);
      assert Init(h + Repeated(n, r)) == h + Repeated(n - 1, r);
      assert Final(h).time in Times(h);
    }
  }

  /** From nothing, several requests of one millisecond are all admitted exactly when both limits are
      positive, or the window is shorter than a millisecond and the burst limit is. */
  lemma SameMillisecondIff(c: Config, n: nat, now: nat)
    requires n >= 2
    ensures Recorded(c, Repeated(n, Request(now, true))) <==> c.burstSize >= 1 && (c.requestsPerWindow >= 1 || c.WindowMs() == 0)
  {
    OneTime(c, now);
    RepeatedRecorded(c, n, now);
  }

  lemma {:induction false} SameMillisecondTimes(n: nat, r: Request)
    requires n > 0
    ensures Times(Repeated(n, r)) == {r.time} && Init(Repeated(n, r)) == Repeated(n - 1, r) && Last(Repeated(n, r)) == r.time
  {
    if n > 1 { SameMillisecondTimes(n - 1, r); }
  }

  lemma OneTime(c: Config, now: nat)
    ensures Admits(c, {now}, now) <==> c.burstSize >= 1 && (c.requestsPerWindow >= 1 || c.WindowMs() == 0)
  {
    assert InSecond({now}, now / 1000) == {now};
    assert Recent({now}, now - c.WindowMs(), now) == if c.WindowMs() == 0 then {} else {now};
  }

  lemma {:induction false} RepeatedRecorded(c: Config, n: nat, now: nat)
    ensures Recorded(c, Repeated(n, Request(now, true))) <==> n <= 1 || Admits(c, {now}, now)
  {
    var r := Request(now, true);
    if n >= 1 {
      RepeatedRecorded(c, n - 1, now);
      SameMillisecondTimes(n, r);
      if n >= 2 {
        SameMillisecondTimes(n - 1, r);
      } else {
        assert InSecond({}, now / 1000) == {} && Recent({}, now - c.WindowMs(), now) == {};
      }
    }
  }
}
