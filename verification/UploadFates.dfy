/** What becomes of an upload session, from its creation to its end, over every sequence of requests
    (services/api/internal/http/handlers/upload.go and expiration.go). */
module UploadFates {
  import opened JobQueue
  import opened Uploads

  lemma Statuses(status: Status)
    ensures status in {Pending, Uploading, Complete, Cancelled, Status.Expired, Failed}
  {
  }

  // ---------- What never changes ----------

  ghost predicate SameUpload(x: Session, x': Session) {
    && x'.user == x.user && x'.filename == x.filename && x'.byteSize == x.byteSize
    && x'.rawKey == x.rawKey && x'.expiresAt == x.expiresAt
  }

  lemma StaysSame(s: State, q: Request, id: string)
    requires id in s.sessions
    ensures id in Next(s, q).sessions && SameUpload(s.sessions[id], Next(s, q).sessions[id])
    ensures s.deletedObjects <= Next(s, q).deletedObjects
  {
  }

  lemma {:induction false} SameAfter(s: State, run: seq<Request>, id: string)
    requires id in s.sessions
    ensures id in After(s, run).sessions && SameUpload(s.sessions[id], After(s, run).sessions[id])
    ensures s.deletedObjects <= After(s, run).deletedObjects
    decreases |run|
  {
    if run != [] {
      StaysSame(s, run[0], id);
      SameAfter(Next(s, run[0]), run[1..], id);
    }
  }

  // ---------- Creation ----------

  /** A request creates its session exactly when it names a file and its type, declares a positive size
      within the limit, of an allowed type, under a new id; the answer tells, and the session is as it was
      asked for. */
  lemma CreatedIff(s: State, q: Request)
    requires q.CreateSession?
    ensures AnswerOf(s, q) == OK <==>
              && q.filename != "" && q.mimeType != "" && q.byteSize > 0 && q.typeAllowed
              && (q.maxBytes <= 0 || q.byteSize <= q.maxBytes) && q.id !in s.sessions
    ensures AnswerOf(s, q) == OK <==> q.id !in s.sessions && q.id in Next(s, q).sessions
    ensures AnswerOf(s, q) != OK ==> Next(s, q) == s
    ensures AnswerOf(s, q) == OK ==>
              && Next(s, q).sessions.Keys == s.sessions.Keys + {q.id}
              && var x := Next(s, q).sessions[q.id];
                 && x.user == q.user && x.filename == q.filename && x.byteSize == q.byteSize
                 && x.status == Pending && x.received == 0
  {
  }

  /** The job that an upload ends in: whatever happens between creating a session and completing it, the
      queued job is the first attempt of three on the object named at creation, for the user who created
      the session. */
  lemma QueuedJobIsForUpload(s: State, create: Request, run: seq<Request>, complete: Request)
    requires create.CreateSession? && AnswerOf(s, create) == OK
    requires complete.CompleteUpload? && complete.id == create.id
    ensures var m := After(Next(s, create), run);
            var m' := Next(m, complete);
            m'.queued != m.queued ==>
              && complete.user == create.user
              && m'.queued == m.queued + [Job(complete.jobId, complete.videoId, create.id,
                                              create.uuid + "/" + create.filename, create.user, complete.now, 0, 3)]
  {
    SameAfter(Next(s, create), run, create.id);
    var m := After(Next(s, create), run);
    VideoAddedIff(m, complete);
  }

  // ---------- Chunks ----------

  /** When a chunk counts: for the owner of a pending or uploading session, at most as long as the whole
      file was declared to be, not found infected, and stored.  A scanner that fails is no obstacle. */
  lemma ChunkCountsIff(s: State, q: Request)
    requires q.UploadChunk?
    ensures AnswerOf(s, q) == OK <==>
              && Owns(s, q.id, q.user) && s.sessions[q.id].status in {Pending, Uploading}
              && q.body <= s.sessions[q.id].byteSize && q.scan != Infected && q.stored
    ensures AnswerOf(s, q) == OK <==> Next(s, q).chunks != s.chunks
    ensures AnswerOf(s, q) == OK ==>
              var x, x' := s.sessions[q.id], Next(s, q).sessions[q.id];
              && Next(s, q).chunks == s.chunks + [Chunk(q.id, q.body)]
              && x'.received == x.received + q.body && x'.status == Uploading
    ensures AnswerOf(s, q) == Rejected <==>
              && Owns(s, q.id, q.user) && s.sessions[q.id].status in {Pending, Uploading}
              && q.body <= s.sessions[q.id].byteSize && q.scan == Infected
    ensures AnswerOf(s, q) == Rejected ==> Next(s, q).sessions[q.id] == s.sessions[q.id].(status := Failed)
    ensures AnswerOf(s, q) !in {OK, Rejected} ==> Next(s, q) == s
    ensures forall id :: id in s.sessions && id != q.id ==> id in Next(s, q).sessions && Next(s, q).sessions[id] == s.sessions[id]
  {
    if AnswerOf(s, q) == OK {
      assert |Next(s, q).chunks| == |s.chunks| + 1;
    }
  }

  // ---------- Completion ----------

  /** What the answer to a completion says: success means that there is a job row, which does not mean
      that the job was queued; a server error has completed the session nevertheless. */
  lemma CompletionAnswered(s: State, q: Request)
    requires q.CompleteUpload?
    ensures AnswerOf(s, q) == OK <==> Next(s, q).jobs != s.jobs
    ensures AnswerOf(s, q) == OK ==>
              && Next(s, q).jobs == s.jobs + [JobRow(q.jobId, Video(q.videoId, q.id))]
              && (Next(s, q).queued == s.queued <==> q.outcome == EnqueueFailed)
    ensures AnswerOf(s, q) in {OK, ServerError} ==> Next(s, q).sessions[q.id].status == Complete
    ensures AnswerOf(s, q) !in {OK, ServerError} ==> Next(s, q) == s
  {
    if AnswerOf(s, q) == OK {
      assert |Next(s, q).jobs| == |s.jobs| + 1;
      if q.outcome == AllDone { assert |Next(s, q).queued| == |s.queued| + 1; }
    }
  }

  // Rows added since, none of them for the session.
  ghost predicate NothingNewFor(s: State, s': State, id: string) {
    && s.videos <= s'.videos && s.jobs <= s'.jobs && s.queued <= s'.queued && s.chunks <= s'.chunks
    && (forall i :: |s.videos| <= i < |s'.videos| ==> s'.videos[i].session != id)
    && (forall i :: |s.jobs| <= i < |s'.jobs| ==> s'.jobs[i].video.session != id)
    && (forall i :: |s.queued| <= i < |s'.queued| ==> s'.queued[i].uploadSessionId != id)
    && (forall i :: |s.chunks| <= i < |s'.chunks| ==> s'.chunks[i].session != id)
  }

  lemma NothingNewStep(s: State, q: Request, id: string)
    requires id in s.sessions && s.sessions[id].status in {Complete, Cancelled}
    ensures NothingNewFor(s, Next(s, q), id)
  {
  }

  lemma NothingNewTrans(s: State, m: State, s': State, id: string)
    requires NothingNewFor(s, m, id) && NothingNewFor(m, s', id)
    ensures NothingNewFor(s, s', id)
  {
    forall i | |s.videos| <= i < |s'.videos| ensures s'.videos[i].session != id {
      if i < |m.videos| { assert s'.videos[i] == m.videos[i]; }
    }
    forall i | |s.jobs| <= i < |s'.jobs| ensures s'.jobs[i].video.session != id {
      if i < |m.jobs| { assert s'.jobs[i] == m.jobs[i]; }
    }
    forall i | |s.queued| <= i < |s'.queued| ensures s'.queued[i].uploadSessionId != id {
      if i < |m.queued| { assert s'.queued[i] == m.queued[i]; }
    }
    forall i | |s.chunks| <= i < |s'.chunks| ensures s'.chunks[i].session != id {
      if i < |m.chunks| { assert s'.chunks[i] == m.chunks[i]; }
    }
  }

  /** Nothing is ever added for a session that has been completed or cancelled. */
  lemma {:induction false} NothingNewAfterEnd(s: State, run: seq<Request>, id: string)
    requires id in s.sessions && s.sessions[id].status in {Complete, Cancelled}
    ensures NothingNewFor(s, After(s, run), id)
    decreases |run|
  {
    if run != [] {
      var mid := Next(s, run[0]);
      FinalStates(s, [run[0]], id);
      assert After(s, [run[0]]) == After(mid, []) == mid;
      NothingNewStep(s, run[0], id);
      NothingNewAfterEnd(mid, run[1..], id);
      NothingNewTrans(s, mid, After(mid, run[1..]), id);
    }
  }

  /** A completion whose video could not be inserted leaves the session complete without a video, and
      no later request can make up for it. */
  lemma CompletionLost(run: seq<Request>, q: Request, more: seq<Request>)
    requires q.CompleteUpload? && q.outcome == VideoFailed && AnswerOf(After(EMPTY, run), q) == ServerError
    ensures var s := After(Next(After(EMPTY, run), q), more);
            && q.id in s.sessions && s.sessions[q.id].status == Complete
            && forall v :: v in s.videos ==> v.session != q.id
  {
    var s := After(EMPTY, run);
    var failed := Next(s, q);
    InvAfter(EMPTY, run);
    FinalStates(failed, more, q.id);
    NothingNewAfterEnd(failed, more, q.id);
    assert failed.videos == s.videos;
    forall v | v in After(failed, more).videos ensures v.session != q.id {
      if v in failed.videos { assert s.sessions[v.session].status == Complete; }
    }
  }

  // ---------- Cancellation ----------

  /** A cancellation is granted to the owner of a session that is pending, uploading or failed.  From
      then on, whatever is requested, the session is cancelled and otherwise as it was, no chunk, video,
      job row or queued job is added for it, and its object stays deleted. */
  lemma CancelledForGood(s: State, q: Request, run: seq<Request>)
    requires q.CancelUpload?
    ensures AnswerOf(s, q) == OK <==> Owns(s, q.id, q.user) && s.sessions[q.id].status in {Pending, Uploading, Failed}
    ensures AnswerOf(s, q) != OK ==> Next(s, q) == s
    ensures AnswerOf(s, q) == OK ==>
              var x, s' := s.sessions[q.id], After(Next(s, q), run);
              && q.id in s'.sessions && s'.sessions[q.id] == x.(status := Cancelled)
              && NothingNewFor(s, s', q.id)
              && (x.rawKey != "" ==> x.rawKey in s'.deletedObjects)
  {
    if Owns(s, q.id, q.user) { Statuses(s.sessions[q.id].status); }
    if AnswerOf(s, q) == OK {
      var next := Next(s, q);
      FinalStates(next, run, q.id);
      NothingNewAfterEnd(next, run, q.id);
      SameAfter(next, run, q.id);
      assert next.videos == s.videos && next.jobs == s.jobs && next.queued == s.queued && next.chunks == s.chunks;
    }
  }

  /** In particular nothing that was cancelled has ever become a video. */
  lemma CancelledHasNoVideo(run: seq<Request>, q: Request, more: seq<Request>)
    requires q.CancelUpload? && AnswerOf(After(EMPTY, run), q) == OK
    ensures var s := After(Next(After(EMPTY, run), q), more);
            && (forall v :: v in s.videos ==> v.session != q.id)
            && (forall j :: j in s.queued ==> j.uploadSessionId != q.id)
  {
    var s := After(EMPTY, run);
    InvAfter(EMPTY, run);
    CancelledForGood(s, q, more);
    CountedNext(s, q);
    VideosNext(s, q);
    OneNext(s, q);
    InvAfter(Next(s, q), more);
    NothingYet(After(Next(s, q), more), q.id);
  }

  // ---------- Expiry ----------

  /** A sweep expires a session exactly when it is pending or uploading more than two hours after
      its creation, whatever was requested in between; then its object is deleted, and no chunk is accepted
      any more. */
  lemma ExpiresIff(s: State, create: Request, run: seq<Request>, now: int, chunk: Request)
    requires create.CreateSession? && AnswerOf(s, create) == OK
    requires chunk.UploadChunk? && chunk.id == create.id
    ensures var m := After(Next(s, create), run);
            var m' := Next(m, ExpireSessions(now));
            && create.id in m.sessions && create.id in m'.sessions
            && (m.sessions[create.id].status in {Pending, Uploading} && now > create.now + 7200 ==>
                  && m'.sessions[create.id] == m.sessions[create.id].(status := Status.Expired)
                  && create.uuid + "/" + create.filename in m'.deletedObjects
                  && AnswerOf(m', chunk) in {NotFound, BadRequest})
            && (m.sessions[create.id].status !in {Pending, Uploading} || now <= create.now + 7200 ==>
                  m'.sessions[create.id] == m.sessions[create.id])
  {
    SameAfter(Next(s, create), run, create.id);
    var m := After(Next(s, create), run);
    var key := create.uuid + "/" + create.filename;
    Statuses(m.sessions[create.id].status);
    assert m.sessions[create.id].expiresAt == create.now + 7200 && m.sessions[create.id].rawKey == key;
    if Overdue(m.sessions[create.id], now) {
      assert create.id in OverdueIds(m.sessions, now);
      assert key in ObjectsOf(m.sessions, OverdueIds(m.sessions, now));
    }
  }

  /** An expired session cannot be cancelled and takes no chunk, but until a sweep has run, being past the
      two hours makes no difference to a chunk. */
  lemma SweepDecides(s: State, id: string, user: string, now: int, body: nat, scan: Scan, stored: bool)
    requires Owns(s, id, user) && s.sessions[id].expiresAt < now
    ensures var q := UploadChunk(id, user, body, scan, stored);
            && (Accepting(s.sessions[id]) && body <= s.sessions[id].byteSize && scan != Infected && stored ==> AnswerOf(s, q) == OK)
            && AnswerOf(Next(s, ExpireSessions(now)), q) == BadRequest
            && (Accepting(s.sessions[id]) ==> AnswerOf(Next(s, ExpireSessions(now)), CancelUpload(id, user)) == BadRequest)
  {
  }
}
