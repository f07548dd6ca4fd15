/** What the reset time that the limiter announces is worth (allow in
    services/api/internal/http/middleware/ratelimit.go). */
module RateResets {
  import opened RateLimiter

  /** Without a burst refusal the announced second is the one in which the window that starts now ends,
      exactly if the fractions of a second of the clock and of the window do not add up to a second more;
      for a window of whole seconds it always is. */
  lemma ResetIsWindowEndIff(c: Config, now: nat)
    ensures now / 1000 + c.WindowSeconds() == (now + c.WindowMs()) / 1000 <==> now % 1000 + c.WindowMs() % 1000 < 1000
    ensures now / 1000 + c.WindowSeconds() <= (now + c.WindowMs()) / 1000 <= now / 1000 + c.WindowSeconds() + 1
  {
    SecondsOfMs(c.windowNs);
    assert now == 1000 * (now / 1000) + now % 1000;
    assert c.WindowMs() == 1000 * (c.WindowMs() / 1000) + c.WindowMs() % 1000;
  }

  lemma SecondsOfMs(ns: nat)
    ensures ns / 1_000_000_000 == ns / 1_000_000 / 1000
  {
  }

  /** Who makes no request until the announced second is over is admitted then, if the window is a whole
      number of seconds, and a second later in any case. */
  lemma AdmittedAfterReset(c: Config, h: seq<Request>, later: int)
    requires Recorded(c, h) && h != []
    requires later / 1000 > Last(h) / 1000 + c.WindowSeconds() + if c.WindowMs() % 1000 == 0 then 0 else 1
    ensures Admits(c, Times(h), later)
  {
    TimesUpToLast(c, h);
    SecondsOfMs(c.windowNs);
    LaterSecond(Last(h), later, c.WindowMs());
    SilenceReadmits(c, h, later);
  }

  lemma LaterSecond(last: int, later: int, window: nat)
    requires last >= 0 && later / 1000 > last / 1000 + window / 1000 + if window % 1000 == 0 then 0 else 1
    ensures last + window <= later && last / 1000 < later / 1000
  {
    assert window == 1000 * (window / 1000) + window % 1000;
    assert last == 1000 * (last / 1000) + last % 1000;
    assert later == 1000 * (later / 1000) + later % 1000;
  }

  /** After a burst refusal the next second lifts the burst limit: from then on only the window counts. */
  lemma BurstLiftedAtReset(c: Config, h: seq<Request>, later: int)
    requires Recorded(c, h) && h != [] && later / 1000 >= Last(h) / 1000 + 1
    ensures Admits(c, Times(h), later) <==> |Recent(Times(h), later - c.WindowMs(), later)| <= c.requestsPerWindow
  {
    TimesUpToLast(c, h);
    NoneYet(Times(h), Last(h), later / 1000);
    OnlyWindow(c, Times(h), later);
  }

  lemma OnlyWindow(c: Config, times: set<int>, later: int)
    requires InSecond(times, later / 1000) == {}
    ensures Admits(c, times, later) <==> |Recent(times, later - c.WindowMs(), later)| <= c.requestsPerWindow
  {
  }

  lemma NoneYet(times: set<int>, last: int, second: int)
    requires (forall t :: t in times ==> t <= last) && last / 1000 < second
    ensures InSecond(times, second) == {}
  {
    forall t | t in times ensures t / 1000 != second { NotLater(t, last); }
  }

  lemma OneMoreRecorded(c: Config, h: seq<Request>, r: Request)
    requires Recorded(c, h) && Last(h) <= r.time && (r.admitted <==> Admits(c, Times(h), r.time))
    ensures Recorded(c, h + [r]) && Times(h + [r]) == Times(h) + {r.time} && Last(h + [r]) == r.time
  {
    assert Init(h + [r]) == h;
  }

  lemma FewAdmit(c: Config, times: set<int>, now: nat)
    requires c == Config(1, 1_000_000_000, 10) && now < 1000
    requires times == {} || times == {1} || times == {1, 2}
    requires forall t :: t in times ==> t <= now
    ensures Admits(c, times, now) <==> times != {1, 2}
  {
    assert InSecond(times, now / 1000) == times && Recent(times, now - 1000, now) == times;
  }

  /** Within the announced second itself a request can still be refused: with one request per second
      allowed, after requests in milliseconds 1, 2 and 3, of which the last is refused until second 1,
      so is a request in millisecond 1000. */
  lemma RefusedAtReset() returns (c: Config, h: seq<Request>, later: int)
    ensures Recorded(c, h) && h != [] && !Final(h).admitted
    ensures later / 1000 == Last(h) / 1000 + c.WindowSeconds() && c.WindowMs() % 1000 == 0
    ensures |InSecond(Times(h), Last(h) / 1000)| <= c.burstSize && !Admits(c, Times(h), later)
  {
    c, h, later := Config(1, 1_000_000_000, 10), [], 1000;
    FewAdmit(c, {}, 1);
    OneMoreRecorded(c, h, Request(1, true));
    h := h + [Request(1, true)];
    assert Times(h) == {1};
    FewAdmit(c, {1}, 2);
    OneMoreRecorded(c, h, Request(2, true));
    h := h + [Request(2, true)];
    assert Times(h) == {1, 2};
    FewAdmit(c, {1, 2}, 3);
    OneMoreRecorded(c, h, Request(3, false));
    h := h + [Request(3, false)];
    assert Times(h) == {1, 2, 3};
    assert InSecond(Times(h), 0) == {1, 2, 3} && Recent(Times(h), 0, 1000) == {1, 2, 3};
  }
}
