/** Live streams and their DVR recordings (services/api/internal/live/service.go, repository.go and
    dvr.go). A stream is named by its key; each service call is atomic; times are in seconds. */
module LiveStreams {
  import opened Options
  import opened SegmentPaths

  datatype Status = Idle | Live | Ending | Ended

  datatype Stream = Stream(
    owner: string,
    status: Status,
    dvr: bool,
    window: int,
    startedAt: Option<real>,
    endedAt: Option<real>,
    cleanedAt: Option<real>,
    hlsUrl: string)

  type Streams = map<string, Stream>

  datatype LiveConfig = LiveConfig(paths: Config, defaultWindow: nat)

  // ---------- The calls, on the table of streams ----------

  predicate Active(st: Stream) {
    st.status == Idle || st.status == Live
  }

  // GetActiveByOwner finds something.
  predicate HasActive(streams: Streams, owner: string) {
    exists k :: k in streams && streams[k].owner == owner && Active(streams[k])
  }

  function NewStream(c: LiveConfig, owner: string, key: string, dvr: Option<bool>, window: Option<int>): Stream {
    Stream(owner, Idle,
           if dvr.Some? then dvr.value else true,
           if window.Some? && window.value > 0 then window.value else c.defaultWindow,
           None, None, None, PlaylistURL(c.paths, key))
  }

  function Created(c: LiveConfig, streams: Streams, owner: string, key: string, dvr: Option<bool>, window: Option<int>): Streams {
    if HasActive(streams, owner) then streams else streams[key := NewStream(c, owner, key, dvr, window)]
  }

  // The UPDATE of UpdateStatus on one row: it has no guard on the status.
  function WriteStatus(st: Stream, status: Status, startedAt: Option<real>, endedAt: Option<real>): Stream {
    st.(status := status,
        startedAt := if startedAt.Some? then startedAt else st.startedAt,
        endedAt := if endedAt.Some? then endedAt else st.endedAt)
  }

  function Started(st: Stream, now: real): Stream {
    if st.status == Idle then WriteStatus(st, Live, Some(now), None) else st
  }

  function Stopped(st: Stream, now: real): Stream {
    if st.status == Ended || st.status == Ending then st
    else WriteStatus(WriteStatus(st, Ending, None, None), Ended, None, Some(now))
  }

  // ---------- Seek range ----------

  datatype DVRInfo = DVRInfo(enabled: bool, window: int, seekable: real, atLiveEdge: bool, url: string)

  function Capped(elapsed: real, window: int): real {
    if elapsed > window as real then window as real else elapsed
  }

  function ComputeDVRInfo(st: Stream, now: real): DVRInfo {
    if !st.dvr then DVRInfo(false, 0, 0.0, false, "")
    else
      var seekable :=
        if st.status == Live && st.startedAt.Some? then Capped(now - st.startedAt.value, st.window)
        else if (st.status == Ended || st.status == Ending) && st.startedAt.Some? && st.endedAt.Some? then
          Capped(st.endedAt.value - st.startedAt.value, st.window)
        else 0.0;
      DVRInfo(true, st.window, seekable, true, st.hlsUrl)
  }

  // ---------- The cleaner ----------

  predicate Listed(st: Stream) {
    st.status == Ended && st.dvr && st.cleanedAt.None?
  }

  /** The streams a sweep acts on: listed, past the end of their retention window, with a directory. */
  predicate Expired(st: Stream, now: real) {
    Listed(st) && st.endedAt.Some? && now >= st.endedAt.value + st.window as real && st.hlsUrl != ""
  }

  function Swept(streams: Streams, now: real): Streams {
    map k | k in streams :: if Expired(streams[k], now) then streams[k].(cleanedAt := Some(now)) else streams[k]
  }

  predicate Removed(c: LiveConfig, st: Stream, now: real, failing: set<string>, file: string) {
    var dir := SegmentDir(c.paths, st.hlsUrl);
    Expired(st, now) && dir !in failing && Within(file, dir)
  }

  // Directories in `failing` could not be removed.
  predicate RemovedBySweep(c: LiveConfig, streams: Streams, now: real, failing: set<string>, file: string) {
    exists k :: k in streams && Removed(c, streams[k], now, failing, file)
  }

  function SweptDisk(c: LiveConfig, streams: Streams, disk: set<string>, now: real, failing: set<string>): set<string> {
    set file | file in disk && !RemovedBySweep(c, streams, now, failing, file)
  }

  // ---------- Runs ----------

  datatype Call =
    | Create(owner: string, key: string, dvr: Option<bool>, window: Option<int>)
    | DetectStart(key: string)
    | DetectEnd(key: string)
    | Delete(key: string, owner: string)
    | Segment(key: string, file: string)  // the media server writes a file
    | Sweep(failing: set<string>)

  datatype Event = Event(now: real, call: Call)

  datatype State = State(streams: Streams, disk: set<string>, clock: real, used: set<string>)

  /** The clock does not run backwards, keys are fresh and slash-free, and the media server writes into
      the directory of a live stream only. */
  predicate Allowed(c: LiveConfig, s: State, e: Event) {
    && s.clock <= e.now
    && (e.call.Create? ==> Key(e.call.key) && e.call.key !in s.used)
    && (e.call.Segment? ==>
          && e.call.key in s.streams && s.streams[e.call.key].status == Live
          && Within(e.call.file, SegmentDir(c.paths, s.streams[e.call.key].hlsUrl)))
  }

  function StreamsAfter(c: LiveConfig, streams: Streams, e: Event): Streams {
    match e.call
    case Create(owner, key, dvr, window) => Created(c, streams, owner, key, dvr, window)
    case DetectStart(key) => if key in streams then streams[key := Started(streams[key], e.now)] else streams
    case DetectEnd(key) => if key in streams then streams[key := Stopped(streams[key], e.now)] else streams
    case Delete(key, owner) => if key in streams && streams[key].owner == owner then streams - {key} else streams
    case Segment(_, _) => streams
    case Sweep(_) => Swept(streams, e.now)
  }

  function DiskAfter(c: LiveConfig, s: State, e: Event): set<string> {
    match e.call
    case Segment(_, file) => s.disk + {file}
    case Sweep(failing) => SweptDisk(c, s.streams, s.disk, e.now, failing)
    case _ => s.disk
  }

  function Next(c: LiveConfig, s: State, e: Event): State {
    State(StreamsAfter(c, s.streams, e), DiskAfter(c, s, e), e.now, if e.call.Create? then s.used + {e.call.key} else s.used)
  }

  predicate AllAllowed(c: LiveConfig, s: State, run: seq<Event>)
    decreases |run|
  {
    run == [] || (Allowed(c, s, run[0]) && AllAllowed(c, Next(c, s, run[0]), run[1..]))
  }

  function After(c: LiveConfig, s: State, run: seq<Event>): State
    decreases |run|
  {
    if run == [] then s else After(c, Next(c, s, run[0]), run[1..])
  }

  // ---------- Invariant ----------

  predicate Sound(c: LiveConfig, clock: real, key: string, st: Stream) {
    && Key(key)
    && st.hlsUrl == PlaylistURL(c.paths, key)
    && st.window >= 0
    && st.status != Ending
    && (st.status == Idle ==> st.startedAt.None?)
    && (st.status == Live ==> st.startedAt.Some?)
    && (st.startedAt.Some? ==> st.startedAt.value <= clock)
    && (st.endedAt.Some? <==> st.status == Ended)
    && (st.endedAt.Some? ==> st.endedAt.value <= clock)
    && (st.startedAt.Some? && st.endedAt.Some? ==> st.startedAt.value <= st.endedAt.value)
    && (st.cleanedAt.Some? ==> st.dvr && st.endedAt.Some? && st.endedAt.value + st.window as real <= st.cleanedAt.value <= clock)
  }

  ghost predicate AllSound(c: LiveConfig, s: State) {
    forall k :: k in s.streams ==> k in s.used && Sound(c, s.clock, k, s.streams[k])
  }

  ghost predicate OneActive(streams: Streams) {
    forall k1, k2 :: k1 in streams && k2 in streams && Active(streams[k1]) && Active(streams[k2]) && streams[k1].owner == streams[k2].owner
      ==> k1 == k2
  }

  ghost predicate Inv(c: LiveConfig, s: State) {
    AllSound(c, s) && OneActive(s.streams)
  }

  lemma RowsStaySound(c: LiveConfig, clock: real, now: real, key: string, st: Stream)
    requires Sound(c, clock, key, st) && clock <= now
    ensures Sound(c, now, key, st)
    ensures Sound(c, now, key, Started(st, now)) && Sound(c, now, key, Stopped(st, now))
    ensures Expired(st, now) ==> Sound(c, now, key, st.(cleanedAt := Some(now)))
  {
  }

  lemma AllSoundNext(c: LiveConfig, s: State, e: Event)
    requires AllSound(c, s) && Allowed(c, s, e)
    ensures AllSound(c, Next(c, s, e))
  {
    var s' := Next(c, s, e);
    forall k | k in s'.streams ensures k in s'.used && Sound(c, e.now, k, s'.streams[k]) {
      if k in s.streams {
        RowsStaySound(c, s.clock, e.now, k, s.streams[k]);
      } else {
        assert s'.streams[k] == NewStream(c, e.call.owner, k, e.call.dvr, e.call.window);
      }
    }
  }

  lemma OneActiveNext(c: LiveConfig, s: State, e: Event)
    requires AllSound(c, s) && OneActive(s.streams) && Allowed(c, s, e)
    ensures OneActive(Next(c, s, e).streams)
  {
    var before, after := s.streams, Next(c, s, e).streams;
    forall k1, k2 | k1 in after && k2 in after && Active(after[k1]) && Active(after[k2]) && after[k1].owner == after[k2].owner
      ensures k1 == k2
    {
      assert k1 in before ==> before[k1].owner == after[k1].owner && Active(before[k1]);
      assert k2 in before ==> before[k2].owner == after[k2].owner && Active(before[k2]);
    }
  }

  lemma {:induction false} InvAfter(c: LiveConfig, s: State, run: seq<Event>)
    requires Inv(c, s) && AllAllowed(c, s, run)
    ensures Inv(c, After(c, s, run)) && s.clock <= After(c, s, run).clock
    decreases |run|
  {
    if run != [] {
      AllSoundNext(c, s, run[0]);
      OneActiveNext(c, s, run[0]);
      InvAfter(c, Next(c, s, run[0]), run[1..]);
    }
  }

  /** A fresh system. */
  predicate Initial(s: State) {
    s.streams == map[] && s.used == {} && s.disk == {}
  }

  ghost predicate Reached(c: LiveConfig, s: State, run: seq<Event>, s': State) {
    Initial(s) && AllAllowed(c, s, run) && s' == After(c, s, run)
  }

  // ---------- Streams over whole runs ----------

  /** Whatever the calls, no owner ever has two idle or live streams, and every row is sound: started
      before ended, cleaned only once its retention window is over. */
  lemma OneActivePerOwner(c: LiveConfig, start: State, run: seq<Event>, s: State, k1: string, k2: string)
    requires Reached(c, start, run, s) && k1 in s.streams && k2 in s.streams
    ensures Sound(c, s.clock, k1, s.streams[k1])
    ensures s.streams[k1].owner == s.streams[k2].owner && Active(s.streams[k1]) && Active(s.streams[k2]) ==> k1 == k2
  {
    InvAfter(c, start, run);
  }

  /** What calls made after time `now` leave alone. */
  predicate Keeps(now: real, st: Stream, st': Stream) {
    && st'.owner == st.owner && st'.dvr == st.dvr && st'.window == st.window && st'.hlsUrl == st.hlsUrl
    && (st.startedAt.Some? ==> st'.startedAt == st.startedAt)
    && (st.endedAt.Some? ==> st'.endedAt == st.endedAt && st'.startedAt == st.startedAt)
    && (st.endedAt.None? && st'.endedAt.Some? ==> now <= st'.endedAt.value)
    && (st.cleanedAt.Some? ==> st'.cleanedAt.Some?)
    && (st.status == Ended ==> st'.status == Ended)
    && (st.status == Live ==> st'.status != Idle)
  }

  lemma NextKeeps(c: LiveConfig, s: State, e: Event, k: string)
    requires AllSound(c, s) && Allowed(c, s, e) && k in s.used
    ensures k in Next(c, s, e).used
    ensures k !in s.streams ==> k !in Next(c, s, e).streams
    ensures k in s.streams && k in Next(c, s, e).streams ==> Keeps(s.clock, s.streams[k], Next(c, s, e).streams[k])
  {
  }

  /** Streams move forward only: an ended stream stays ended, a start or end time once set never changes,
      and a deleted stream never comes back. */
  lemma {:induction false} ForwardOnly(c: LiveConfig, s: State, run: seq<Event>, k: string)
    requires Inv(c, s) && AllAllowed(c, s, run) && k in s.used
    ensures var s' := After(c, s, run);
            && k in s'.used
            && (k in s'.streams ==> k in s.streams && Keeps(s.clock, s.streams[k], s'.streams[k]))
    decreases |run|
  {
    if run != [] {
      NextKeeps(c, s, run[0], k);
      AllSoundNext(c, s, run[0]);
      OneActiveNext(c, s, run[0]);
      ForwardOnly(c, Next(c, s, run[0]), run[1..], k);
    }
  }

  // ---------- The seek range over whole runs ----------

  function Seekable(s: State, k: string): real
    requires k in s.streams
  {
    ComputeDVRInfo(s.streams[k], s.clock).seekable
  }

  /** The range stays within [0, window]; it never shrinks, whatever happens to the stream; and once the
      stream has ended it is the shorter of its duration and its window, for good. */
  lemma SeekRange(c: LiveConfig, start: State, run: seq<Event>, s: State, more: seq<Event>, k: string)
    requires Reached(c, start, run, s) && AllAllowed(c, s, more)
    requires k in s.streams && k in After(c, s, more).streams
    ensures 0.0 <= Seekable(s, k) <= s.streams[k].window as real
    ensures Seekable(s, k) <= Seekable(After(c, s, more), k)
    ensures s.streams[k].status == Ended ==> Seekable(After(c, s, more), k) == Seekable(s, k)
    ensures var st := s.streams[k];
            st.status == Ended && st.dvr && st.startedAt.Some? && st.endedAt.Some? ==>
              Seekable(s, k) == Capped(st.endedAt.value - st.startedAt.value, st.window)
  {
    InvAfter(c, start, run);
    InvAfter(c, s, more);
    ForwardOnly(c, s, more, k);
    var st, st' := s.streams[k], After(c, s, more).streams[k];
    assert Sound(c, s.clock, k, st) && Sound(c, After(c, s, more).clock, k, st');
  }

  // ---------- Recordings over whole runs ----------

  // By SegmentPaths.SegmentDirOfKey, what segmentDir makes of the stream's playlist URL.
  function DirOf(c: LiveConfig, k: string): string {
    Root(c.paths) + k
  }

  // No sweep will act on this key again.
  predicate Unlisted(s: State, k: string) {
    k in s.used && (k in s.streams ==> s.streams[k].cleanedAt.Some?)
  }

  lemma OnlyOwnDirectory(c: LiveConfig, s: State, now: real, failing: set<string>, file: string, k: string)
    requires AllSound(c, s) && ValidConfig(c.paths) && Key(k) && Within(file, DirOf(c, k))
    ensures RemovedBySweep(c, s.streams, now, failing, file) <==>
            k in s.streams && Removed(c, s.streams[k], now, failing, file)
  {
    SegmentDirOfKey(c.paths, k);
    if RemovedBySweep(c, s.streams, now, failing, file) {
      var other :| other in s.streams && Removed(c, s.streams[other], now, failing, file);
      SegmentDirOfKey(c.paths, other);
      DirectoriesDisjoint(Root(c.paths), other, k, file);
    }
  }

  /** Keys never share a directory, so one event removes a file only by sweeping its own stream, after
      that stream's retention window. */
  lemma FileRemoved(c: LiveConfig, s: State, e: Event, file: string, k: string)
    requires AllSound(c, s) && ValidConfig(c.paths) && Key(k) && Within(file, DirOf(c, k))
    requires file in s.disk && file !in Next(c, s, e).disk
    ensures e.call.Sweep? && DirOf(c, k) !in e.call.failing
    ensures k in s.streams && Expired(s.streams[k], e.now) && Next(c, s, e).streams[k].cleanedAt == Some(e.now)
  {
    SegmentDirOfKey(c.paths, k);
    OnlyOwnDirectory(c, s, e.now, e.call.failing, file, k);
  }

  /** Over whole runs: while a stream exists and is not yet past its end plus its window, its files are
      kept. */
  lemma {:induction false} Retained(c: LiveConfig, s: State, run: seq<Event>, file: string, k: string)
    requires Inv(c, s) && AllAllowed(c, s, run) && ValidConfig(c.paths)
    requires k in s.streams && k in After(c, s, run).streams
    requires file in s.disk && Within(file, DirOf(c, k))
    ensures file in After(c, s, run).disk ||
            (var st := After(c, s, run).streams[k];
             st.endedAt.Some? && st.endedAt.value + st.window as real <= After(c, s, run).clock)
    decreases |run|
  {
    if run != [] {
      var mid := Next(c, s, run[0]);
      AllSoundNext(c, s, run[0]);
      OneActiveNext(c, s, run[0]);
      ForwardOnly(c, mid, run[1..], k);
      InvAfter(c, mid, run[1..]);
      if file in mid.disk {
        Retained(c, mid, run[1..], file, k);
      } else {
        FileRemoved(c, s, run[0], file, k);
      }
    }
  }

  /** The other side: the files of a stream that was deleted, or marked as cleaned although its directory
      could not be removed, stay on disk for good. */
  lemma {:induction false} LeftBehind(c: LiveConfig, s: State, run: seq<Event>, file: string, k: string)
    requires Inv(c, s) && AllAllowed(c, s, run) && ValidConfig(c.paths) && Key(k)
    requires Unlisted(s, k) && file in s.disk && Within(file, DirOf(c, k))
    ensures file in After(c, s, run).disk
    decreases |run|
  {
    if run != [] {
      var mid := Next(c, s, run[0]);
      AllSoundNext(c, s, run[0]);
      OneActiveNext(c, s, run[0]);
      NextKeeps(c, s, run[0], k);
      if file !in mid.disk { FileRemoved(c, s, run[0], file, k); }
      LeftBehind(c, mid, run[1..], file, k);
    }
  }

  /** A sweep marks every stream it acts on, whether or not its directory could be removed. */
  lemma MarkedRegardless(c: LiveConfig, s: State, now: real, failing: set<string>, k: string, file: string)
    requires AllSound(c, s) && ValidConfig(c.paths) && k in s.streams && Expired(s.streams[k], now)
    requires file in s.disk && Within(file, DirOf(c, k))
    ensures var s' := Next(c, s, Event(now, Sweep(failing)));
            && Unlisted(s', k)
            && (file in s'.disk <==> DirOf(c, k) in failing)
  {
    SegmentDirOfKey(c.paths, k);
    OnlyOwnDirectory(c, s, now, failing, file, k);
  }

  // ---------- Why the calls have to be atomic ----------

  /** UpdateStatus has no guard: a start that has read an idle row and writes after an end has run
      revives the ended stream, with its end time still set. */
  lemma LateStartRevives(st: Stream, endTime: real, startTime: real)
    requires st.status == Idle
    ensures var revived := WriteStatus(Stopped(st, endTime), Live, Some(startTime), None);
            revived.status == Live && revived.endedAt == Some(endTime)
  {
  }

  /** Two creations that both look before either inserts give one owner two streams. */
  lemma ConcurrentCreates(c: LiveConfig, streams: Streams, owner: string, k1: string, k2: string)
    requires !HasActive(streams, owner) && k1 != k2 && k1 !in streams && k2 !in streams
    ensures !OneActive(streams[k1 := NewStream(c, owner, k1, None, None)][k2 := NewStream(c, owner, k2, None, None)])
  {
    var both := streams[k1 := NewStream(c, owner, k1, None, None)][k2 := NewStream(c, owner, k2, None, None)];
    assert Active(both[k1]) && Active(both[k2]) && both[k1].owner == both[k2].owner;
  }

  // ---------- The service and its repository ----------

  class LiveService {
    const config: LiveConfig
    var streams: Streams

    constructor (config: LiveConfig)
      ensures this.config == config && streams == map[]
    {
      this.config := config;
      streams := map[];
    }

    // The newest one in the code; in every reachable state it is the only one.
    method GetActiveByOwner(owner: string) returns (existing: Option<string>)
      ensures existing.Some? <==> HasActive(streams, owner)
      ensures existing.Some? ==> existing.value in streams && streams[existing.value].owner == owner && Active(streams[existing.value])
      ensures existing.Some? && OneActive(streams) ==>
                forall k :: k in streams && streams[k].owner == owner && Active(streams[k]) ==> k == existing.value
    {
      if k :| k in streams && streams[k].owner == owner && Active(streams[k]) {
        return Some(k);
      }
      return None;
    }

    method Create(owner: string, key: string, dvr: Option<bool>, window: Option<int>) returns (created: bool)
      modifies this
      ensures created <==> !HasActive(old(streams), owner)
      ensures streams == Created(config, old(streams), owner, key, dvr, window)
    {
      var existing := GetActiveByOwner(owner);
      if existing != None {
        return false;
      }
      var useDvr, dvrWindow := true, config.defaultWindow as int;
      if dvr != None { useDvr := dvr.value; }
      if window != None && window.value > 0 { dvrWindow := window.value; }
      streams := streams[key := Stream(owner, Idle, useDvr, dvrWindow, None, None, None, "")];
      SetStreamURLs(key, PlaylistURL(config.paths, key));
      created := true;
    }

    method SetStreamURLs(key: string, hlsUrl: string)
      modifies this
      ensures streams == if key in old(streams) then old(streams)[key := old(streams)[key].(hlsUrl := hlsUrl)] else old(streams)
    {
      if key in streams {
        streams := streams[key := streams[key].(hlsUrl := hlsUrl)];
      }
    }

    method UpdateStatus(key: string, status: Status, startedAt: Option<real>, endedAt: Option<real>)
      modifies this
      ensures streams == if key in old(streams) then old(streams)[key := WriteStatus(old(streams)[key], status, startedAt, endedAt)]
                         else old(streams)
    {
      if key !in streams {
        return;
      }
      var st := streams[key].(status := status);
      if startedAt != None { st := st.(startedAt := startedAt); }
      if endedAt != None { st := st.(endedAt := endedAt); }
      streams := streams[key := st];
    }

    /** Refused when there is no such stream or its status is neither idle nor live. */
    method DetectStart(key: string, now: real) returns (ok: bool)
      modifies this
      ensures ok <==> key in old(streams) && Active(old(streams)[key])
      ensures streams == StreamsAfter(config, old(streams), Event(now, Call.DetectStart(key)))
    {
      if key !in streams {
        return false;
      }
      var st := streams[key];
      if st.status == Live {
        assert streams[key := st] == streams;
        return true;
      }
      if st.status != Idle {
        assert streams[key := st] == streams;
        return false;
      }
      UpdateStatus(key, Live, Some(now), None);
      ok := true;
    }

    /** Refused only when there is no such stream. */
    method DetectEnd(key: string, now: real) returns (ok: bool)
      modifies this
      ensures ok <==> key in old(streams)
      ensures streams == StreamsAfter(config, old(streams), Event(now, Call.DetectEnd(key)))
    {
      if key !in streams {
        return false;
      }
      var st := streams[key];
      if st.status == Ended || st.status == Ending {
        assert streams[key := st] == streams;
        return true;
      }
      UpdateStatus(key, Ending, None, None);
      UpdateStatus(key, Ended, None, Some(now));
      ok := true;
    }

    method Delete(key: string, owner: string) returns (deleted: bool)
      modifies this
      ensures deleted <==> key in old(streams) && old(streams)[key].owner == owner
      ensures streams == if deleted then old(streams) - {key} else old(streams)
    {
      deleted := key in streams && streams[key].owner == owner;
      if deleted {
        streams := streams - {key};
      }
    }

    method ListEndedWithDVR() returns (keys: set<string>)
      ensures forall k :: k in keys <==>
                k in streams && streams[k].status == Ended && streams[k].dvr && streams[k].cleanedAt.None?
      ensures forall k, now :: k in streams && Expired(streams[k], now) ==> k in keys
    {
      keys := set k | k in streams && Listed(streams[k]);
    }

    method MarkDVRCleaned(key: string, now: real)
      modifies this
      ensures streams == if key in old(streams) then old(streams)[key := old(streams)[key].(cleanedAt := Some(now))] else old(streams)
    {
      if key in streams {
        streams := streams[key := streams[key].(cleanedAt := Some(now))];
      }
    }
  }

  class DVRCleaner {
    const live: LiveService
    var disk: set<string>

    constructor (live: LiveService)
      ensures this.live == live && disk == {}
    {
      this.live := live;
      disk := {};
    }

    method RemoveAll(dir: string, failing: set<string>)
      modifies this
      ensures forall file :: file in disk <==> file in old(disk) && (dir in failing || !Within(file, dir))
    {
      if dir !in failing {
        disk := set file | file in disk && !Within(file, dir);
      }
    }

    // Handled so far: the listed streams no longer in `todo`.
    ghost predicate Progress(before: Streams, files: set<string>, todo: set<string>, now: real, failing: set<string>)
      reads this, live
    {
      && live.streams.Keys == before.Keys
      && (forall k :: k in before ==>
            live.streams[k] == if k !in todo && Expired(before[k], now) then before[k].(cleanedAt := Some(now)) else before[k])
      && (forall file :: file in disk <==>
            file in files && !exists k :: k in before && k !in todo && Removed(live.config, before[k], now, failing, file))
    }

    method SweepOne(key: string, now: real, failing: set<string>, ghost before: Streams, ghost files: set<string>, ghost todo: set<string>)
      requires Progress(before, files, todo, now, failing)
      requires key in todo && key in before && Listed(before[key])
      modifies this, live
      ensures Progress(before, files, todo - {key}, now, failing)
    {
      var st := live.streams[key];
      if !st.dvr || st.endedAt == None {
        return;
      }
      if now < st.endedAt.value + st.window as real {
        return;
      }
      var dir := SegmentDir(live.config.paths, st.hlsUrl);
      if dir == "" {
        return;
      }
      RemoveAll(dir, failing);
      live.MarkDVRCleaned(key, now);
    }

    method Sweep(now: real, failing: set<string>)
      modifies this, live
      ensures live.streams == Swept(old(live.streams), now)
      ensures disk == SweptDisk(live.config, old(live.streams), old(disk), now, failing)
    {
      var todo := live.ListEndedWithDVR();
      ghost var before, files := live.streams, disk;
      while todo != {}
        invariant Progress(before, files, todo, now, failing)
        invariant forall k :: k in todo ==> k in before && Listed(before[k])
        decreases |todo|
      {
        var key :| key in todo;
        SweepOne(key, now, failing, before, files, todo);
        todo := todo - {key};
      }
    }
  }
}
