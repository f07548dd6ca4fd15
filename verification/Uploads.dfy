/** Upload sessions (services/api/internal/http/handlers/upload.go and expiration.go). Each request is
    atomic; file-type rules, the malware scanner, storage and the database decide the outcomes that the
    requests carry. */
module Uploads {
  import opened JobQueue

  datatype Status = Pending | Uploading | Complete | Cancelled | Expired | Failed

  datatype Session = Session(user: string, filename: string, byteSize: int, received: int, status: Status, rawKey: string, expiresAt: int)

  const LIFETIME := 2 * 60 * 60
  const MAX_ATTEMPTS := 3

  datatype Chunk = Chunk(session: string, length: nat)
  datatype Video = Video(id: string, session: string)
  datatype JobRow = JobRow(id: string, video: Video)

  datatype State = State(
    sessions: map<string, Session>,
    chunks: seq<Chunk>,          // accepted chunks, in order
    videos: seq<Video>,
    jobs: seq<JobRow>,
    queued: seq<Job>,            // what was enqueued for transcoding
    deletedObjects: set<string>)

  datatype Scan = Clean | Infected | ScanFailed

  // How far completing a session gets.
  datatype Completion = AllDone | VideoFailed | JobFailed | EnqueueFailed

  datatype Request =
    | CreateSession(id: string, user: string, filename: string, mimeType: string, byteSize: int, typeAllowed: bool,
                    maxBytes: int, uuid: string, now: int)
    | UploadChunk(id: string, user: string, body: nat, scan: Scan, stored: bool)
    | CompleteUpload(id: string, user: string, videoId: string, jobId: string, now: int, outcome: Completion)
    | CancelUpload(id: string, user: string)
    | ExpireSessions(now: int)

  datatype Answer = OK | BadRequest | NotFound | TooLarge | Rejected | ServerError

  // ---------- One request ----------

  predicate Owns(s: State, id: string, user: string) {
    id in s.sessions && s.sessions[id].user == user
  }

  predicate Accepting(x: Session) {
    x.status == Pending || x.status == Uploading
  }

  function AnswerOf(s: State, q: Request): Answer {
    match q
    case CreateSession(id, _, filename, mimeType, byteSize, typeAllowed, maxBytes, _, _) =>
      if filename == "" || mimeType == "" || byteSize <= 0 || !typeAllowed || (maxBytes > 0 && byteSize > maxBytes) then BadRequest
      else if id in s.sessions then ServerError
      else OK
    case UploadChunk(id, user, body, scan, stored) =>
      if !Owns(s, id, user) then NotFound
      else if !Accepting(s.sessions[id]) then BadRequest
      else if body > s.sessions[id].byteSize then TooLarge
      else if scan == Infected then Rejected
      else if !stored then ServerError
      else OK
    case CompleteUpload(id, user, _, _, _, outcome) =>
      if !Owns(s, id, user) then NotFound
      else if s.sessions[id].status == Complete || s.sessions[id].status == Cancelled then BadRequest
      else if outcome == VideoFailed || outcome == JobFailed then ServerError
      else OK
    case CancelUpload(id, user) =>
      if !Owns(s, id, user) then NotFound
      else if s.sessions[id].status in {Complete, Cancelled, Expired} then BadRequest
      else OK
    case ExpireSessions(_) => OK
  }

  function WithStatus(s: State, id: string, status: Status): State
    requires id in s.sessions
  {
    s.(sessions := s.sessions[id := s.sessions[id].(status := status)])
  }

  function Created(s: State, q: Request): State
    requires q.CreateSession?
  {
    if AnswerOf(s, q) != OK then s
    else s.(sessions := s.sessions[q.id := Session(q.user, q.filename, q.byteSize, 0, Pending, q.uuid + "/" + q.filename, q.now + LIFETIME)])
  }

  // The UPDATE behind an accepted chunk: it has no guard on the status.
  function AddReceived(s: State, id: string, length: nat): State
    requires id in s.sessions
  {
    var x := s.sessions[id];
    s.(sessions := s.sessions[id := x.(received := x.received + length, status := Uploading)],
       chunks := s.chunks + [Chunk(id, length)])
  }

  function Chunked(s: State, q: Request): State
    requires q.UploadChunk?
  {
    match AnswerOf(s, q)
    case OK => AddReceived(s, q.id, q.body)
    case Rejected => WithStatus(s, q.id, Failed)
    case _ => s
  }

  function QueueJob(x: Session, id: string, videoId: string, jobId: string, now: int): Job {
    Job(jobId, videoId, id, x.rawKey, x.user, now, 0, MAX_ATTEMPTS)
  }

  predicate Completes(s: State, q: Request) {
    q.CompleteUpload? && AnswerOf(s, q) in {OK, ServerError}
  }

  function Completed(s: State, q: Request): State
    requires q.CompleteUpload?
  {
    if !Completes(s, q) then s else
    var video := Video(q.videoId, q.id);
    WithStatus(s, q.id, Complete).(
      videos := if q.outcome == VideoFailed then s.videos else s.videos + [video],
      jobs := if q.outcome in {VideoFailed, JobFailed} then s.jobs else s.jobs + [JobRow(q.jobId, video)],
      queued := if q.outcome == AllDone then s.queued + [QueueJob(s.sessions[q.id], q.id, q.videoId, q.jobId, q.now)] else s.queued)
  }

  function WithoutObject(s: State, key: string): State {
    if key == "" then s else s.(deletedObjects := s.deletedObjects + {key})
  }

  function Dropped(s: State, q: Request): State
    requires q.CancelUpload?
  {
    if AnswerOf(s, q) != OK then s else WithoutObject(WithStatus(s, q.id, Cancelled), s.sessions[q.id].rawKey)
  }

  predicate Overdue(x: Session, now: int) {
    x.expiresAt < now && x.status !in {Complete, Cancelled, Expired, Failed}
  }

  function ExpiredSessions(sessions: map<string, Session>, now: int): map<string, Session> {
    map id | id in sessions :: if Overdue(sessions[id], now) then sessions[id].(status := Expired) else sessions[id]
  }

  function OverdueIds(sessions: map<string, Session>, now: int): set<string> {
    set id | id in sessions && Overdue(sessions[id], now)
  }

  function ObjectsOf(sessions: map<string, Session>, ids: set<string>): set<string> {
    set id | id in ids && id in sessions && sessions[id].rawKey != "" :: sessions[id].rawKey
  }

  lemma ObjectsOfOneMore(sessions: map<string, Session>, ids: set<string>, id: string)
    requires id in sessions
    ensures ObjectsOf(sessions, ids + {id}) ==
            ObjectsOf(sessions, ids) + if sessions[id].rawKey == "" then {} else {sessions[id].rawKey}
  {
    if sessions[id].rawKey != "" {
      assert id in ids + {id};
    }
  }

  function Next(s: State, q: Request): State {
    match q
    case CreateSession(_, _, _, _, _, _, _, _, _) => Created(s, q)
    case UploadChunk(_, _, _, _, _) => Chunked(s, q)
    case CompleteUpload(_, _, _, _, _, _) => Completed(s, q)
    case CancelUpload(_, _) => Dropped(s, q)
    case ExpireSessions(now) =>
      s.(sessions := ExpiredSessions(s.sessions, now), 
        deletedObjects := s.deletedObjects + ObjectsOf(s.sessions, OverdueIds(s.sessions, now)))
  }

  function After(s: State, run: seq<Request>): State
    decreases |run|
  {
    if run == [] then s else After(Next(s, run[0]), run[1..])
  }

  const EMPTY := State(map[], [], [], [], [], {})

  // ---------- Invariant ----------

  function Total(chunks: seq<Chunk>, id: string): nat {
    var n := |chunks|;
    if n == 0 then 0
    else Total(chunks[..n - 1], id) + (if chunks[n - 1].session == id then chunks[n - 1].length else 0)
  }

  ghost predicate CountedSessions(s: State) {
    && (forall id :: id in s.sessions ==> s.sessions[id].byteSize > 0 && s.sessions[id].received == Total(s.chunks, id))
    && (forall c :: c in s.chunks ==> c.session in s.sessions && c.length <= s.sessions[c.session].byteSize)
  }

  ghost predicate VideosOfComplete(s: State) {
    && (forall v :: v in s.videos ==> v.session in s.sessions && s.sessions[v.session].status == Complete)
    && (forall j :: j in s.jobs ==> j.video in s.videos)
    && (forall q :: q in s.queued ==> JobRow(q.id, Video(q.videoId, q.uploadSessionId)) in s.jobs)
  }

  ghost predicate OneVideo(videos: seq<Video>) {
    forall i, k :: 0 <= i < k < |videos| ==> videos[i].session != videos[k].session
  }

  ghost predicate OneJob(jobs: seq<JobRow>) {
    forall i, k :: 0 <= i < k < |jobs| ==> jobs[i].video.session != jobs[k].video.session
  }

  ghost predicate OneQueued(queued: seq<Job>) {
    forall i, k :: 0 <= i < k < |queued| ==> queued[i].uploadSessionId != queued[k].uploadSessionId
  }

  ghost predicate OnePerSession(s: State) {
    OneVideo(s.videos) && OneJob(s.jobs) && OneQueued(s.queued)
  }

  ghost predicate Inv(s: State) {
    CountedSessions(s) && VideosOfComplete(s) && OnePerSession(s)
  }

  lemma {:induction false} NoChunks(chunks: seq<Chunk>, id: string)
    requires forall c :: c in chunks ==> c.session != id
    ensures Total(chunks, id) == 0
  {
    if chunks != [] {
      assert chunks[|chunks| - 1] in chunks;
      NoChunks(chunks[..|chunks| - 1], id);
    }
  }

  lemma TotalOneMore(chunks: seq<Chunk>, c: Chunk, id: string)
    ensures Total(chunks + [c], id) == Total(chunks, id) + if c.session == id then c.length else 0
  {
    assert (chunks + [c])[..|chunks|] == chunks;
  }

  lemma OnlyStatus(s: State, q: Request, id: string)
    requires id in s.sessions && !q.UploadChunk?
    ensures id in Next(s, q).sessions && Next(s, q).chunks == s.chunks
    ensures Next(s, q).sessions[id] == s.sessions[id].(status := Next(s, q).sessions[id].status)
  {
  }

  lemma ChunkSums(s: State, q: Request, id: string)
    requires q.UploadChunk? && id in s.sessions && s.sessions[id].received == Total(s.chunks, id)
    ensures Chunked(s, q).sessions.Keys == s.sessions.Keys && Chunked(s, q).sessions[id].byteSize == s.sessions[id].byteSize
    ensures Chunked(s, q).sessions[id].received == Total(Chunked(s, q).chunks, id)
  {
    TotalOneMore(s.chunks, Chunk(q.id, q.body), id);
  }

  lemma SumsNext(s: State, q: Request, id: string)
    requires CountedSessions(s) && id in Next(s, q).sessions
    ensures Next(s, q).sessions[id].byteSize > 0
    ensures Next(s, q).sessions[id].received == Total(Next(s, q).chunks, id)
  {
    if id !in s.sessions {
      NoChunks(s.chunks, id);
    } else if q.UploadChunk? {
      ChunkSums(s, q, id);
    } else {
      OnlyStatus(s, q, id);
    }
  }

  lemma ChunksNext(s: State, q: Request, c: Chunk)
    requires CountedSessions(s) && c in Next(s, q).chunks
    ensures c.session in Next(s, q).sessions && c.length <= Next(s, q).sessions[c.session].byteSize
  {
    if c in s.chunks { assert s.sessions[c.session].byteSize >= c.length; }
  }

  lemma CountedNext(s: State, q: Request)
    requires CountedSessions(s)
    ensures CountedSessions(Next(s, q))
  {
    var s' := Next(s, q);
    forall id | id in s'.sessions ensures s'.sessions[id].byteSize > 0 && s'.sessions[id].received == Total(s'.chunks, id) {
      SumsNext(s, q, id);
    }
    forall c | c in s'.chunks ensures c.session in s'.sessions && c.length <= s'.sessions[c.session].byteSize {
      ChunksNext(s, q, c);
    }
  }

  lemma VideosNext(s: State, q: Request)
    requires VideosOfComplete(s)
    ensures VideosOfComplete(Next(s, q))
  {
    var s' := Next(s, q);
    forall v | v in s'.videos ensures v.session in s'.sessions && s'.sessions[v.session].status == Complete {
      if v in s.videos { assert s.sessions[v.session].status == Complete; }
    }
  }

  lemma NothingYet(s: State, id: string)
    requires VideosOfComplete(s) && (id in s.sessions ==> s.sessions[id].status != Complete)
    ensures forall v :: v in s.videos ==> v.session != id
    ensures forall j :: j in s.jobs ==> j.video.session != id
    ensures forall q :: q in s.queued ==> q.uploadSessionId != id
  {
    forall q | q in s.queued ensures q.uploadSessionId != id {
      assert JobRow(q.id, Video(q.videoId, q.uploadSessionId)).video in s.videos;
    }
  }

  lemma OneNext(s: State, q: Request)
    requires VideosOfComplete(s) && OnePerSession(s)
    ensures OnePerSession(Next(s, q))
  {
    if Completes(s, q) {
      NothingYet(s, q.id);
      var s' := Next(s, q);
      assert OneVideo(s'.videos) && OneJob(s'.jobs) && OneQueued(s'.queued);
    }
  }

  lemma {:induction false} InvAfter(s: State, run: seq<Request>)
    requires Inv(s)
    ensures Inv(After(s, run))
    decreases |run|
  {
    if run != [] {
      CountedNext(s, run[0]);
      VideosNext(s, run[0]);
      OneNext(s, run[0]);
      InvAfter(Next(s, run[0]), run[1..]);
    }
  }

  // ---------- Sessions over whole runs ----------

  /** Over any requests, the byte count of a session is the sum of its accepted chunks, each of them at
      most the declared size. */
  lemma ReceivedIsSum(run: seq<Request>, id: string)
    ensures var s := After(EMPTY, run);
            && (id in s.sessions ==> s.sessions[id].received == Total(s.chunks, id))
            && (forall c :: c in s.chunks && c.session == id ==> id in s.sessions && c.length <= s.sessions[id].byteSize)
  {
    InvAfter(EMPTY, run);
  }

  /** Each session yields at most one video, one job row and one enqueued job, in that order, and only once
      it is complete; the enqueued jobs start at attempt 0 with three attempts. */
  lemma OneVideoOneJob(run: seq<Request>)
    ensures var s := After(EMPTY, run);
            && OnePerSession(s)
            && (forall v :: v in s.videos ==> v.session in s.sessions && s.sessions[v.session].status == Complete)
            && (forall j :: j in s.jobs ==> j.video in s.videos)
            && (forall q :: q in s.queued ==> JobRow(q.id, Video(q.videoId, q.uploadSessionId)) in s.jobs)
            && (forall q :: q in s.queued ==> q.attempt == 0 && q.maxAttempts == 3)
  {
    InvAfter(EMPTY, run);
    QueuedFresh(EMPTY, run);
  }

  lemma {:induction false} QueuedFresh(s: State, run: seq<Request>)
    requires forall q :: q in s.queued ==> q.attempt == 0 && q.maxAttempts == 3
    ensures forall q :: q in After(s, run).queued ==> q.attempt == 0 && q.maxAttempts == 3
    decreases |run|
  {
    if run != [] { QueuedFresh(Next(s, run[0]), run[1..]); }
  }

  /** Complete and cancelled are final: nothing about such a session ever changes again. */
  lemma {:induction false} FinalStates(s: State, run: seq<Request>, id: string)
    requires id in s.sessions && s.sessions[id].status in {Complete, Cancelled}
    ensures id in After(s, run).sessions && After(s, run).sessions[id] == s.sessions[id]
    decreases |run|
  {
    if run != [] { FinalStates(Next(s, run[0]), run[1..], id); }
  }

  // ---------- What the requests do not rule out ----------

  function Repeated(q: Request, n: nat): seq<Request> {
    if n == 0 then [] else [q] + Repeated(q, n - 1)
  }

  /** Each chunk is bounded by the declared size, but their sum is not: any multiple can be received. */
  lemma {:induction false} ReceivedUnbounded(s: State, id: string, n: nat)
    requires id in s.sessions && Accepting(s.sessions[id]) && s.sessions[id].byteSize > 0
    ensures var x := s.sessions[id];
            var s' := After(s, Repeated(UploadChunk(id, x.user, x.byteSize, Clean, true), n));
            id in s'.sessions && s'.sessions[id].received == x.received + n * x.byteSize
    decreases n
  {
    var x := s.sessions[id];
    if n > 0 {
      var q := UploadChunk(id, x.user, x.byteSize, Clean, true);
      assert Repeated(q, n)[1..] == Repeated(q, n - 1);
      ReceivedUnbounded(Next(s, q), id, n - 1);
      assert x.byteSize + (n - 1) * x.byteSize == n * x.byteSize;
    }
  }

  // An accepted chunk larger than what was left of the declared size.
  predicate Overshoots(s: State, q: Request, id: string) {
    q.UploadChunk? && q.id == id && AnswerOf(s, q) == OK && q.body > s.sessions[id].byteSize - s.sessions[id].received
  }

  predicate SomeOvershoot(s: State, run: seq<Request>, id: string)
    decreases |run|
  {
    run != [] && (Overshoots(s, run[0], id) || SomeOvershoot(Next(s, run[0]), run[1..], id))
  }

  lemma ReceivedStep(s: State, q: Request, id: string)
    requires id in s.sessions
    ensures var x, s' := s.sessions[id], Next(s, q);
            && id in s'.sessions && s'.sessions[id].byteSize == x.byteSize && s'.sessions[id].received >= x.received
            && (Overshoots(s, q, id) ==> s'.sessions[id].received > x.byteSize)
            && (x.received <= x.byteSize && !Overshoots(s, q, id) ==> s'.sessions[id].received <= x.byteSize)
  {
  }

  /** A session ends up with more bytes than it declared exactly when some accepted chunk was larger
      than what was left of the declared size at that moment, which the handler does not look at. */
  lemma {:induction false} ExceedsDeclaredIff(s: State, run: seq<Request>, id: string)
    requires id in s.sessions && s.sessions[id].received <= s.sessions[id].byteSize
    ensures var s' := After(s, run);
            && id in s'.sessions
            && (s'.sessions[id].received > s'.sessions[id].byteSize <==> SomeOvershoot(s, run, id))
    decreases |run|
  {
    if run != [] {
      ReceivedStep(s, run[0], id);
      if Overshoots(s, run[0], id) {
        ReceivedOnlyGrows(Next(s, run[0]), run[1..], id);
      } else {
        ExceedsDeclaredIff(Next(s, run[0]), run[1..], id);
      }
    }
  }

  lemma {:induction false} ReceivedOnlyGrows(s: State, run: seq<Request>, id: string)
    requires id in s.sessions
    ensures var s' := After(s, run);
            && id in s'.sessions && s'.sessions[id].byteSize == s.sessions[id].byteSize
            && s'.sessions[id].received >= s.sessions[id].received
    decreases |run|
  {
    if run != [] {
      ReceivedStep(s, run[0], id);
      ReceivedOnlyGrows(Next(s, run[0]), run[1..], id);
    }
  }

  /** When a request to complete a session adds its video, and when it enqueues its job: whether a chunk
      was rejected, or the session expired, makes no difference. */
  lemma VideoAddedIff(s: State, q: Request)
    requires q.CompleteUpload?
    ensures var may := Owns(s, q.id, q.user) && s.sessions[q.id].status !in {Complete, Cancelled};
            && (Next(s, q).videos != s.videos <==> may && q.outcome != VideoFailed)
            && (Next(s, q).videos != s.videos ==> Next(s, q).videos == s.videos + [Video(q.videoId, q.id)])
            && (Next(s, q).queued != s.queued <==> may && q.outcome == AllDone)
            && (Next(s, q).queued != s.queued ==>
                  Next(s, q).queued == s.queued + [QueueJob(s.sessions[q.id], q.id, q.videoId, q.jobId, q.now)])
  {
    assert |s.videos + [Video(q.videoId, q.id)]| != |s.videos|;
    if Completes(s, q) {
      assert |s.queued + [QueueJob(s.sessions[q.id], q.id, q.videoId, q.jobId, q.now)]| != |s.queued|;
    }
  }

  // What may become of a failed or expired session.
  predicate Lingers(x: Session, x': Session) {
    && x' == x.(status := x'.status)
    && x'.status in {x.status, Complete, Cancelled}
    && (x.status == Expired ==> x'.status != Cancelled)
  }

  /** A session that has failed or expired stays so, whatever is requested, until it is completed or, if
      it failed, cancelled; and until then its owner can complete it into a queued video. */
  lemma {:induction false} StaysCompletable(s: State, run: seq<Request>, id: string, q: Request)
    requires id in s.sessions && s.sessions[id].status in {Failed, Expired}
    requires q.CompleteUpload? && q.id == id && q.user == s.sessions[id].user && q.outcome == AllDone
    ensures var s' := After(s, run);
            && id in s'.sessions && Lingers(s.sessions[id], s'.sessions[id])
            && (s'.sessions[id].status !in {Complete, Cancelled} ==>
                  && Next(s', q).videos == s'.videos + [Video(q.videoId, id)]
                  && Next(s', q).queued == s'.queued + [QueueJob(s.sessions[id], id, q.videoId, q.jobId, q.now)])
    decreases |run|
  {
    if run == [] {
    } else if Next(s, run[0]).sessions[id].status in {Failed, Expired} {
      StaysCompletable(Next(s, run[0]), run[1..], id, q);
    } else {
      FinalStates(Next(s, run[0]), run[1..], id);
    }
  }

  /** How a session gets there: any admitted chunk can be found infected, and an overdue session expires
      and loses its object; both can be completed into a queued video. */
  lemma RejectedStillCompletes(s: State, id: string, body: nat, stored: bool, videoId: string, jobId: string, now: int)
    requires id in s.sessions && Accepting(s.sessions[id])
    ensures var x := s.sessions[id];
            var complete := CompleteUpload(id, x.user, videoId, jobId, now, AllDone);
            && (body <= x.byteSize ==>
                  var failed := Next(s, UploadChunk(id, x.user, body, Infected, stored));
                  && failed.sessions[id].status == Failed
                  && Next(failed, complete).videos == s.videos + [Video(videoId, id)]
                  && Next(failed, complete).queued == s.queued + [QueueJob(x, id, videoId, jobId, now)])
            && (x.expiresAt < now ==>
                  var expired := Next(s, ExpireSessions(now));
                  && expired.sessions[id].status == Expired
                  && Next(expired, complete).videos == s.videos + [Video(videoId, id)]
                  && Next(expired, complete).queued == s.queued + [QueueJob(x, id, videoId, jobId, now)]
                  && (x.rawKey != "" ==> x.rawKey in Next(expired, complete).deletedObjects))
  {
    var x := s.sessions[id];
    if x.expiresAt < now {
      assert id in OverdueIds(s.sessions, now);
      assert x.rawKey != "" ==> x.rawKey in ObjectsOf(s.sessions, OverdueIds(s.sessions, now));
    }
  }

  /** Why requests have to be atomic: a chunk that was admitted before its session was completed, and is
      counted afterwards, reopens the session, and completing it again yields a second video for it. */
  lemma LateChunkReopens(s: State, id: string, length: nat, v1: string, v2: string, j1: string, j2: string, now: int)
    requires id in s.sessions && Accepting(s.sessions[id])
    ensures var x := s.sessions[id];
            var once := Next(s, CompleteUpload(id, x.user, v1, j1, now, AllDone));
            var twice := Next(AddReceived(once, id, length), CompleteUpload(id, x.user, v2, j2, now, AllDone));
            && twice.videos == s.videos + [Video(v1, id), Video(v2, id)]
            && !OnePerSession(twice)
  {
    var x := s.sessions[id];
    var once := Next(s, CompleteUpload(id, x.user, v1, j1, now, AllDone));
    var twice := Next(AddReceived(once, id, length), CompleteUpload(id, x.user, v2, j2, now, AllDone));
    assert twice.videos[|s.videos|].session == twice.videos[|s.videos| + 1].session;
  }

  // ---------- The handler ----------

  class UploadHandler {
    var sessions: map<string, Session>
    var videos: seq<Video>
    var jobs: seq<JobRow>
    var deletedObjects: set<string>
    const queue: Queue
    ghost var chunks: seq<Chunk>
    ghost var queued: seq<Job>

    ghost function Value(): State
      reads this
    {
      State(sessions, chunks, videos, jobs, queued, deletedObjects)
    }

    constructor (queue: Queue)
      ensures this.queue == queue && Value() == EMPTY
    {
      this.queue := queue;
      sessions, videos, jobs, deletedObjects, chunks, queued := map[], [], [], {}, [], [];
    }

    method Create(id: string, user: string, filename: string, mimeType: string, byteSize: int, typeAllowed: bool,
                  maxBytes: int, uuid: string, now: int) returns (answer: Answer)
      modifies this
      ensures answer == AnswerOf(old(Value()), CreateSession(id, user, filename, mimeType, byteSize, typeAllowed, maxBytes, uuid, now))
      ensures Value() == Next(old(Value()), CreateSession(id, user, filename, mimeType, byteSize, typeAllowed, maxBytes, uuid, now))
    {
      if filename == "" || mimeType == "" || byteSize <= 0 {
        return BadRequest;
      }
      if !typeAllowed || (maxBytes > 0 && byteSize > maxBytes) {
        return BadRequest;
      }
      if id in sessions {
        return ServerError;
      }
      sessions := sessions[id := Session(user, filename, byteSize, 0, Pending, uuid + "/" + filename, now + LIFETIME)];
      answer := OK;
    }

    // UPDATE upload_sessions SET status
    method SetStatus(id: string, status: Status)
      requires id in sessions
      modifies this`sessions
      ensures sessions == old(sessions)[id := old(sessions)[id].(status := status)]
    {
      sessions := sessions[id := sessions[id].(status := status)];
    }

    method Receive(id: string, user: string, body: nat, scan: Scan, stored: bool) returns (answer: Answer)
      modifies this
      ensures answer == AnswerOf(old(Value()), UploadChunk(id, user, body, scan, stored))
      ensures Value() == Next(old(Value()), UploadChunk(id, user, body, scan, stored))
    {
      if id !in sessions || sessions[id].user != user {
        return NotFound;
      }
      var x := sessions[id];
      if x.status != Pending && x.status != Uploading {
        return BadRequest;
      }
      // Read at most one byte more than declared.
      var length := if body > x.byteSize + 1 then x.byteSize + 1 else body;
      if length > x.byteSize {
        return TooLarge;
      }
      if scan == Infected {
        SetStatus(id, Failed);
        return Rejected;
      }
      if !stored {
        return ServerError;
      }
      sessions := sessions[id := x.(received := x.received + length, status := Uploading)];
      chunks := chunks + [Chunk(id, length)];
      answer := OK;
    }

    /** A failure to enqueue is not reported: the job row is there. */
    method Finish(id: string, user: string, videoId: string, jobId: string, now: int, outcome: Completion) returns (answer: Answer)
      modifies this, queue
      ensures answer == AnswerOf(old(Value()), CompleteUpload(id, user, videoId, jobId, now, outcome))
      ensures Value() == Next(old(Value()), CompleteUpload(id, user, videoId, jobId, now, outcome))
      ensures old(queue.stream) <= queue.stream && queued == old(queued) + queue.stream[|old(queue.stream)|..]
      ensures queue.delivered == old(queue.delivered) && queue.pending == old(queue.pending) && queue.dlq == old(queue.dlq)
    {
      assert queued == queued + queue.stream[|queue.stream|..];
      if id !in sessions || sessions[id].user != user {
        return NotFound;
      }
      var x := sessions[id];
      if x.status == Complete || x.status == Cancelled {
        return BadRequest;
      }
      SetStatus(id, Complete);
      if outcome == VideoFailed {
        return ServerError;
      }
      var video := Video(videoId, id);
      videos := videos + [video];
      if outcome == JobFailed {
        return ServerError;
      }
      jobs := jobs + [JobRow(jobId, video)];
      if outcome != EnqueueFailed {
        var job := Job(jobId, videoId, id, x.rawKey, x.user, now, 0, 3);
        var _ := queue.Enqueue(job);
        queued := queued + [job];
      }
      answer := OK;
    }

    method DeleteObject(key: string)
      modifies this`deletedObjects
      ensures deletedObjects == if key == "" then old(deletedObjects) else old(deletedObjects) + {key}
    {
      if key != "" {
        deletedObjects := deletedObjects + {key};
      }
    }

    method Cancel(id: string, user: string) returns (answer: Answer)
      modifies this
      ensures answer == AnswerOf(old(Value()), CancelUpload(id, user))
      ensures Value() == Next(old(Value()), CancelUpload(id, user))
    {
      if id !in sessions || sessions[id].user != user {
        return NotFound;
      }
      var x := sessions[id];
      if x.status == Complete || x.status == Cancelled || x.status == Expired {
        return BadRequest;
      }
      SetStatus(id, Cancelled);
      DeleteObject(x.rawKey);
      answer := OK;
    }

    /** One UPDATE for all overdue sessions, then the objects of the rows it returned, one by one. */
    method Expire(now: int)
      modifies this
      ensures Value() == Next(old(Value()), ExpireSessions(now))
    {
      ghost var before, files := sessions, deletedObjects;
      var rows := OverdueIds(sessions, now);
      sessions := ExpiredSessions(sessions, now);
      ghost var done: set<string> := {};
      while rows != {}
        invariant rows + done == OverdueIds(before, now)
        invariant deletedObjects == files + ObjectsOf(before, done)
        modifies `deletedObjects
        decreases |rows|
      {
        var id :| id in rows;
        assert id in rows + done;
        ObjectsOfOneMore(before, done, id);
        DeleteObject(sessions[id].rawKey);
        rows, done := rows - {id}, done + {id};
      }
      assert done == OverdueIds(before, now);
    }
  }
}
