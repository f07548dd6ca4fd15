/** What a viewer is told about a stream's recording, in terms of what happened to the stream and when
    (services/api/internal/live/dvr.go and service.go), over every sequence of calls. */
module SeekRanges {
  import opened Options
  import opened SegmentPaths
  import opened LiveStreams

  // ---------- A stream from its creation on ----------

  /** A creation adds its stream exactly when the owner has no other that is idle or live; so an owner
      whose streams have all ended or been deleted can create the next. */
  lemma CreatedIff(c: LiveConfig, s: State, now: real, owner: string, key: string, dvr: Option<bool>, window: Option<int>)
    requires Allowed(c, s, Event(now, Create(owner, key, dvr, window))) && AllSound(c, s)
    ensures var s' := Next(c, s, Event(now, Create(owner, key, dvr, window)));
            && (key in s'.streams <==> forall k :: k in s.streams && s.streams[k].owner == owner ==> s.streams[k].status == Ended)
            && (key !in s'.streams ==> s'.streams == s.streams)
            && (forall k :: k in s.streams ==> k in s'.streams && s'.streams[k] == s.streams[k])
  {
    forall k | k in s.streams ensures Sound(c, s.clock, k, s.streams[k]) {}
  }

  /** A stream goes away only when its owner deletes it. */
  lemma DeletedByOwner(c: LiveConfig, s: State, e: Event, k: string)
    requires k in s.streams
    ensures k !in Next(c, s, e).streams <==> e.call == Call.Delete(k, s.streams[k].owner)
  {
  }

  // What the viewer is told.
  function Info(s: State, k: string): DVRInfo
    requires k in s.streams
  {
    ComputeDVRInfo(s.streams[k], s.clock)
  }

  /** From creation on, whatever is called: recording is on unless it was asked to be off; if on, the
      window is the one that was asked for if positive, else the configured one, and the URL is that of
      the stream's playlist; if off, nothing is told. */
  lemma InfoOfCreated(c: LiveConfig, s: State, now: real, owner: string, key: string, dvr: Option<bool>, window: Option<int>,
                      run: seq<Event>)
    requires Inv(c, s)
    requires Allowed(c, s, Event(now, Create(owner, key, dvr, window)))
    requires AllAllowed(c, Next(c, s, Event(now, Create(owner, key, dvr, window))), run)
    requires key in Next(c, s, Event(now, Create(owner, key, dvr, window))).streams
    ensures var s' := After(c, Next(c, s, Event(now, Create(owner, key, dvr, window))), run);
            key in s'.streams ==>
              && s'.streams[key].owner == owner
              && (dvr == Some(false) ==> Info(s', key) == DVRInfo(false, 0, 0.0, false, ""))
              && (dvr != Some(false) ==>
                    && Info(s', key).enabled && Info(s', key).atLiveEdge
                    && Info(s', key).url == PlaylistURL(c.paths, key)
                    && (forall w :: window == Some(w) && w > 0 ==> Info(s', key).window == w)
                    && ((window.None? || window.value <= 0) ==> Info(s', key).window == c.defaultWindow))
  {
    var e := Event(now, Create(owner, key, dvr, window));
    AllSoundNext(c, s, e);
    OneActiveNext(c, s, e);
    ForwardOnly(c, Next(c, s, e), run, key);
  }

  // ---------- While a stream is live ----------

  function Shorter(elapsed: real, window: int): real {
    if elapsed <= window as real then elapsed else window as real
  }

  lemma StartedRow(c: LiveConfig, s: State, t0: real, k: string)
    requires k in s.streams && s.streams[k].status == Idle
    ensures var s' := Next(c, s, Event(t0, Call.DetectStart(k)));
            && s'.clock == t0 && k in s'.streams && s'.streams[k] == s.streams[k].(status := Live, startedAt := Some(t0))
  {
  }

  /** A start takes effect on an idle stream only, and at once. */
  lemma StartsIff(c: LiveConfig, s: State, t0: real, k: string)
    requires k in s.streams
    ensures var s' := Next(c, s, Event(t0, Call.DetectStart(k)));
            && k in s'.streams
            && (s'.streams != s.streams <==> s.streams[k].status == Idle)
            && (s.streams[k].status == Idle ==> s'.streams[k].status == Live)
  {
    var s' := Next(c, s, Event(t0, Call.DetectStart(k)));
    if s.streams[k].status != Idle {
      assert s'.streams == s.streams;
    } else {
      assert s'.streams[k] != s.streams[k];
    }
  }

  /** An end takes effect on every stream that has not ended. */
  lemma EndsIff(c: LiveConfig, s: State, t1: real, k: string)
    requires AllSound(c, s) && k in s.streams
    ensures var s' := Next(c, s, Event(t1, Call.DetectEnd(k)));
            && k in s'.streams
            && (s.streams[k].status == Ended ==> s'.streams == s.streams)
            && (s.streams[k].status != Ended ==> s'.streams[k] == s.streams[k].(status := Ended, endedAt := Some(t1)))
  {
    assert Sound(c, s.clock, k, s.streams[k]);
    var s' := Next(c, s, Event(t1, Call.DetectEnd(k)));
    if s.streams[k].status == Ended { assert s'.streams == s.streams; }
  }

  /** A stream with recording that went live at t0 and still is live lets a viewer seek back to its
      start, until the window is full, and over the whole window from then on. */
  lemma SeekableWhileLive(c: LiveConfig, s: State, t0: real, k: string, run: seq<Event>)
    requires Inv(c, s) && k in s.streams && s.streams[k].status == Idle && s.streams[k].dvr
    requires Allowed(c, s, Event(t0, Call.DetectStart(k)))
    requires AllAllowed(c, Next(c, s, Event(t0, Call.DetectStart(k))), run)
    ensures var s' := After(c, Next(c, s, Event(t0, Call.DetectStart(k))), run);
            k in s'.streams && s'.streams[k].status == Live ==>
              Seekable(s', k) == Shorter(s'.clock - t0, s.streams[k].window)
  {
    var e := Event(t0, Call.DetectStart(k));
    StartedRow(c, s, t0, k);
    AllSoundNext(c, s, e);
    OneActiveNext(c, s, e);
    ForwardOnly(c, Next(c, s, e), run, k);
  }

  /** So between two moments at which it is live the range grows by exactly the time that passed, until
      the window is full. */
  lemma GrowsWithTime(c: LiveConfig, s: State, t0: real, k: string, run: seq<Event>, more: seq<Event>)
    requires Inv(c, s) && k in s.streams && s.streams[k].status == Idle && s.streams[k].dvr
    requires Allowed(c, s, Event(t0, Call.DetectStart(k)))
    requires AllAllowed(c, Next(c, s, Event(t0, Call.DetectStart(k))), run)
    requires AllAllowed(c, After(c, Next(c, s, Event(t0, Call.DetectStart(k))), run), more)
    ensures var s1 := After(c, Next(c, s, Event(t0, Call.DetectStart(k))), run);
            var s2 := After(c, s1, more);
            k in s1.streams && k in s2.streams && s2.streams[k].status == Live
            && s2.clock - t0 <= s.streams[k].window as real ==>
              Seekable(s2, k) - Seekable(s1, k) == s2.clock - s1.clock
  {
    var e := Event(t0, Call.DetectStart(k));
    var start := Next(c, s, e);
    var s1 := After(c, start, run);
    AllSoundNext(c, s, e);
    OneActiveNext(c, s, e);
    InvAfter(c, start, run);
    InvAfter(c, s1, more);
    StartedRow(c, s, t0, k);
    ForwardOnly(c, start, run, k);
    ForwardOnly(c, s1, more, k);
    SeekableWhileLive(c, s, t0, k, run);
    RunsOn(c, start, run, more);
    SeekableWhileLive(c, s, t0, k, run + more);
  }

  lemma {:induction false} RunsOn(c: LiveConfig, s: State, run: seq<Event>, more: seq<Event>)
    requires AllAllowed(c, s, run) && AllAllowed(c, After(c, s, run), more)
    ensures AllAllowed(c, s, run + more) && After(c, s, run + more) == After(c, After(c, s, run), more)
    decreases |run|
  {
    if run == [] {
      assert run + more == more;
    } else {
      assert (run + more)[1..] == run[1..] + more;
      RunsOn(c, Next(c, s, run[0]), run[1..], more);
    }
  }

  // ---------- After the end ----------

  /** A stream with recording that went live at t0 and ended at t1 keeps for good the range it had when
      it ended: its duration, or the window if that is shorter.  One that ended without having been live
      has none. */
  lemma SeekableAfterEnd(c: LiveConfig, s: State, t1: real, k: string, run: seq<Event>)
    requires Inv(c, s) && k in s.streams && s.streams[k].status != Ended && s.streams[k].dvr
    requires Allowed(c, s, Event(t1, Call.DetectEnd(k)))
    requires AllAllowed(c, Next(c, s, Event(t1, Call.DetectEnd(k))), run)
    ensures var s' := After(c, Next(c, s, Event(t1, Call.DetectEnd(k))), run);
            k in s'.streams ==>
              && (s.streams[k].status == Idle ==> Seekable(s', k) == 0.0)
              && (s.streams[k].status == Live ==>
                    && s.streams[k].startedAt.Some?
                    && Seekable(s', k) == Shorter(t1 - s.streams[k].startedAt.value, s.streams[k].window))
  {
    var e := Event(t1, Call.DetectEnd(k));
    EndsIff(c, s, t1, k);
    AllSoundNext(c, s, e);
    OneActiveNext(c, s, e);
    ForwardOnly(c, Next(c, s, e), run, k);
    assert Sound(c, s.clock, k, s.streams[k]);
  }

  // ---------- Cleaning ----------

  /** A sweep removes a recording file exactly if its stream has ended with recording on, was not cleaned
      before, is past its end by at least its window, and has a directory that can be removed; and it
      marks the stream under the same conditions but the last. */
  lemma SweepRemovesIff(c: LiveConfig, s: State, now: real, failing: set<string>, k: string, file: string)
    requires AllSound(c, s) && ValidConfig(c.paths) && k in s.streams
    requires file in s.disk && Within(file, DirOf(c, k))
    ensures var st := s.streams[k];
            var s' := Next(c, s, Event(now, Sweep(failing)));
            var due := st.dvr && st.endedAt.Some? && st.cleanedAt.None? && now - st.endedAt.value >= st.window as real;
            && (file !in s'.disk <==> due && DirOf(c, k) !in failing)
            && k in s'.streams
            && s'.streams[k] == if due then st.(cleanedAt := Some(now)) else st
  {
    assert Sound(c, s.clock, k, s.streams[k]);
    SegmentDirOfKey(c.paths, k);
    OnlyOwnDirectory(c, s, now, failing, file, k);
    assert |PlaylistURL(c.paths, k)| > 0;
  }
}
