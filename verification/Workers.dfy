/** N workers over one queue (processNext in services/worker/internal/processor/processor.go,
    the counters of services/worker/internal/metrics/metrics.go), interleaved command by command.

    Every Redis command and every counter update of a worker is a step of its own.  The
    `history` of a state is there to state properties only: no step looks at it, apart from
    Enqueue, whose caller draws a fresh job id. */
module Workers {
  import opened JobQueue

  // What processJob reports: nil, a permanent error, or any other error.
  datatype Outcome = Success | Permanent | Transient

  datatype Stage = Claimed | Running | Succeeded | FailedPermanently | FailedTransiently

  // Where one worker stands in processNext.
  datatype Pc =
    | Polling
    | Holding(stage: Stage, msg: nat, job: Job)
    | DeadLettering(msg: nat, job: Job)  // between the two commands of the pipeline
    | Requeueing(job: Job)               // between Ack and Enqueue in NackWithAttempt

  datatype Metrics = Metrics(started: int, completed: int, failed: int, permanent: int, active: int)

  datatype Phase =
    | Waiting(msg: nat)
    | Held(msg: nat, worker: nat)
    | Gap(worker: nat)
    | Dying(msg: nat, worker: nat, entry: nat, permanent: bool)
    | Done(msg: nat)
    | Dead(entry: nat, permanent: bool)

  datatype Past = Past(original: Job, phase: Phase, claims: nat)

  datatype State = State(
    broker: Broker, pcs: seq<Pc>, metrics: Metrics, history: map<string, Past>, order: seq<string>)

  datatype Action =
    | Enqueue(job: Job)
    | Claim(w: nat)
    | RecordStart(w: nat)
    | Finish(w: nat, outcome: Outcome)
    | Ack(w: nat)
    | AddDeadLetter(w: nat, now: int, reason: string)
    | AckDeadLetter(w: nat)
    | AckForRetry(w: nat)
    | Requeue(w: nat)

  function Initial(workers: nat): State {
    State(Broker([], 0, {}, []), seq(workers, i => Polling), Metrics(0, 0, 0, 0, 0), map[], [])
  }

  predicate InStage(s: State, w: nat, stage: Stage) {
    w < |s.pcs| && s.pcs[w].Holding? && s.pcs[w].stage == stage
  }

  predicate Enabled(s: State, a: Action) {
    match a
    case Enqueue(job) => job.id !in s.history && job.attempt == 0
    case Claim(w) => w < |s.pcs| && s.pcs[w].Polling? && s.broker.delivered < |s.broker.stream|
    case RecordStart(w) => InStage(s, w, Claimed)
    case Finish(w, _) => InStage(s, w, Running)
    case Ack(w) => InStage(s, w, Succeeded)
    case AddDeadLetter(w, _, _) =>
      InStage(s, w, FailedPermanently) || (InStage(s, w, FailedTransiently) && Exhausts(s.pcs[w].job))
    case AckDeadLetter(w) => w < |s.pcs| && s.pcs[w].DeadLettering?
    case AckForRetry(w) => InStage(s, w, FailedTransiently) && !Exhausts(s.pcs[w].job)
    case Requeue(w) => w < |s.pcs| && s.pcs[w].Requeueing?
  }

  function Moved(s: State, w: nat, pc: Pc): State
    requires w < |s.pcs|
  {
    s.(pcs := s.pcs[w := pc])
  }

  function Noted(s: State, j: string, phase: Phase): State {
    if j in s.history then s.(history := s.history[j := s.history[j].(phase := phase)]) else s
  }

  function Finished(m: Metrics, outcome: Outcome): Metrics {
    match outcome
    case Success => m.(active := m.active - 1, completed := m.completed + 1)
    case Permanent => m.(active := m.active - 1, failed := m.failed + 1, permanent := m.permanent + 1)
    case Transient => m.(active := m.active - 1, failed := m.failed + 1)
  }

  function After(outcome: Outcome): Stage {
    match outcome
    case Success => Succeeded
    case Permanent => FailedPermanently
    case Transient => FailedTransiently
  }

  /** The job as it is dead-lettered: a transient failure adds the attempt that exhausted it. */
  function Buried(pc: Pc): Job
    requires pc.Holding?
  {
    if pc.stage == FailedPermanently then pc.job else pc.job.(attempt := pc.job.attempt + 1)
  }

  function Step(s: State, a: Action): State
    requires Enabled(s, a)
  {
    match a
    case Enqueue(job) =>
      s.(broker := XAdd(s.broker, job), order := s.order + [job.id],
         history := s.history[job.id := Past(job, Waiting(|s.broker.stream|), 0)])
    case Claim(w) =>
      var msg := s.broker.delivered;
      var job := s.broker.stream[msg];
      var s' := Moved(s, w, Holding(Claimed, msg, job)).(broker := XReadGroup(s.broker));
      if job.id in s.history
      then s'.(history := s.history[job.id := s.history[job.id].(phase := Held(msg, w), claims := s.history[job.id].claims + 1)])
      else s'
    case RecordStart(w) =>
      Moved(s, w, s.pcs[w].(stage := Running))
        .(metrics := s.metrics.(started := s.metrics.started + 1, active := s.metrics.active + 1))
    case Finish(w, outcome) =>
      Moved(s, w, s.pcs[w].(stage := After(outcome))).(metrics := Finished(s.metrics, outcome))
    case Ack(w) =>
      var pc := s.pcs[w];
      Noted(Moved(s, w, Polling).(broker := XAck(s.broker, pc.msg)), pc.job.id, Done(pc.msg))
    case AddDeadLetter(w, now, reason) =>
      var pc := s.pcs[w];
      var entry := DeadLetterEntry(Buried(pc), now, reason, pc.msg);
      Noted(Moved(s, w, DeadLettering(pc.msg, Buried(pc))).(broker := XAddDeadLetter(s.broker, entry)),
            pc.job.id, Dying(pc.msg, w, |s.broker.dlq|, pc.stage == FailedPermanently))
    case AckDeadLetter(w) =>
      var pc := s.pcs[w];
      var s' := Moved(s, w, Polling).(broker := XAck(s.broker, pc.msg));
      if pc.job.id in s.history && s.history[pc.job.id].phase.Dying?
      then var d := s.history[pc.job.id].phase; Noted(s', pc.job.id, Dead(d.entry, d.permanent))
      else s'
    case AckForRetry(w) =>
      var pc := s.pcs[w];
      Noted(Moved(s, w, Requeueing(pc.job.(attempt := pc.job.attempt + 1))).(broker := XAck(s.broker, pc.msg)),
            pc.job.id, Gap(w))
    case Requeue(w) =>
      var job := s.pcs[w].job;
      Noted(Moved(s, w, Polling).(broker := XAdd(s.broker, job)), job.id, Waiting(|s.broker.stream|))
  }

  /** s' is reached from s by the actions of `run`, each of them enabled when it is taken. */
  ghost predicate Runs(s: State, run: seq<Action>, s': State)
    decreases |run|
  {
    if run == [] then s == s'
    else Enabled(s, run[0]) && Runs(Step(s, run[0]), run[1..], s')
  }

  ghost predicate Reachable(s: State) {
    exists workers: nat, run: seq<Action> :: Runs(Initial(workers), run, s)
  }

  // ---------- The invariant ----------

  // A version of the job that has not used up its attempts.
  ghost predicate Fresh(job: Job, past: Past, attempt: int) {
    job == past.original.(attempt := attempt) && 0 <= attempt && (job.maxAttempts > 0 ==> attempt < job.maxAttempts)
  }

  ghost predicate BuriedOk(job: Job, past: Past, permanent: bool) {
    if permanent then Fresh(job, past, past.claims - 1)
    else job == past.original.(attempt := past.claims) && past.claims == job.maxAttempts && past.claims > 0
  }

  ghost predicate PhaseOk(s: State, j: string)
    requires j in s.history
  {
    var past := s.history[j];
    && past.original.id == j
    && match past.phase
       case Waiting(m) =>
         s.broker.delivered <= m < |s.broker.stream| && Fresh(s.broker.stream[m], past, past.claims)
       case Held(m, w) =>
         && m in s.broker.pending && m < |s.broker.stream| && w < |s.pcs|
         && s.pcs[w].Holding? && s.pcs[w].msg == m && s.pcs[w].job == s.broker.stream[m]
         && Fresh(s.pcs[w].job, past, past.claims - 1)
       case Gap(w) =>
         w < |s.pcs| && s.pcs[w].Requeueing? && Fresh(s.pcs[w].job, past, past.claims) && past.claims > 0
       case Dying(m, w, i, permanent) =>
         && m in s.broker.pending && m < |s.broker.stream| && Fresh(s.broker.stream[m], past, past.claims - 1)
         && w < |s.pcs| && s.pcs[w].DeadLettering? && s.pcs[w].msg == m
         && i < |s.broker.dlq| && s.broker.dlq[i].job == s.pcs[w].job && BuriedOk(s.pcs[w].job, past, permanent)
       case Done(m) =>
         && m < s.broker.delivered && m < |s.broker.stream| && m !in s.broker.pending
         && Fresh(s.broker.stream[m], past, past.claims - 1)
       case Dead(i, permanent) =>
         i < |s.broker.dlq| && BuriedOk(s.broker.dlq[i].job, past, permanent)
  }

  ghost predicate UndeliveredOk(s: State, m: nat)
    requires m < |s.broker.stream|
  {
    var j := s.broker.stream[m].id;
    j in s.history && s.history[j].phase == Waiting(m)
  }

  ghost predicate PendingOk(s: State, m: nat) {
    && m < |s.broker.stream|
    && var j := s.broker.stream[m].id;
    && j in s.history
    && (s.history[j].phase.Held? || s.history[j].phase.Dying?) && s.history[j].phase.msg == m
  }

  ghost predicate WorkerOk(s: State, w: nat)
    requires w < |s.pcs|
  {
    var pc := s.pcs[w];
    pc.Polling? ||
    (&& pc.job.id in s.history
     && var phase := s.history[pc.job.id].phase;
        match pc
        case Holding(_, m, _) => phase == Held(m, w)
        case DeadLettering(m, _) => phase.Dying? && phase.msg == m && phase.worker == w
        case Requeueing(_) => phase == Gap(w))
  }

  ghost predicate DeadLetterOk(s: State, i: nat)
    requires i < |s.broker.dlq|
  {
    var j := s.broker.dlq[i].job.id;
    && j in s.history
    && (s.history[j].phase.Dying? || s.history[j].phase.Dead?) && s.history[j].phase.entry == i
  }

  ghost predicate Inv(s: State) {
    && s.broker.Valid()
    && (forall j :: j in s.history ==> PhaseOk(s, j))
    && (forall m :: s.broker.delivered <= m < |s.broker.stream| ==> UndeliveredOk(s, m))
    && (forall m :: m in s.broker.pending ==> PendingOk(s, m))
    && (forall w :: 0 <= w < |s.pcs| ==> WorkerOk(s, w))
    && (forall i :: 0 <= i < |s.broker.dlq| ==> DeadLetterOk(s, i))
  }

  // Every conjunct of the invariant survives every action; the acting worker is looked up first.

  ghost predicate ActorOk(s: State, a: Action)
    requires Enabled(s, a)
  {
    match a
    case Enqueue(_) => true
    case Claim(w) => WorkerOk(s, w) && UndeliveredOk(s, s.broker.delivered)
    case _ => WorkerOk(s, a.w)
  }

  lemma ActorIsOk(s: State, a: Action)
    requires Inv(s) && Enabled(s, a)
    ensures ActorOk(s, a)
  {
  }

  ghost function ActsOn(s: State, a: Action): string
    requires Enabled(s, a)
  {
    match a
    case Enqueue(job) => job.id
    case Claim(w) => s.broker.stream[s.broker.delivered].id
    case _ => s.pcs[a.w].job.id
  }

  // What the phase of job j speaks of is the same in s' as in s.
  ghost predicate Untouched(s: State, s': State, j: string)
    requires j in s.history
  {
    && j in s'.history && s'.history[j] == s.history[j]
    && s.broker.stream <= s'.broker.stream && s.broker.dlq <= s'.broker.dlq && |s.pcs| == |s'.pcs|
    && var phase := s.history[j].phase;
    && (phase.Waiting? ==> s'.broker.delivered <= phase.msg)
    && (phase.Held? || phase.Dying? ==> phase.msg in s'.broker.pending)
    && (phase.Held? || phase.Dying? || phase.Gap? ==> phase.worker < |s.pcs| && s'.pcs[phase.worker] == s.pcs[phase.worker])
    && (phase.Done? ==> phase.msg !in s'.broker.pending && s.broker.delivered <= s'.broker.delivered)
  }

  lemma AcksTouchOne(s: State, a: Action, j: string)
    requires Inv(s) && Enabled(s, a) && j in s.history && j != ActsOn(s, a)
    requires a.Ack? || a.AckDeadLetter? || a.AckForRetry?
    ensures Untouched(s, Step(s, a), j)
  {
    ActorIsOk(s, a);
    assert PhaseOk(s, j);
  }

  lemma ReadsTouchOne(s: State, a: Action, j: string)
    requires Inv(s) && Enabled(s, a) && j in s.history && j != ActsOn(s, a)
    requires a.Enqueue? || a.Claim? || a.Requeue?
    ensures Untouched(s, Step(s, a), j)
  {
    ActorIsOk(s, a);
    assert PhaseOk(s, j);
  }

  lemma WorkTouchesOne(s: State, a: Action, j: string)
    requires Inv(s) && Enabled(s, a) && j in s.history && j != ActsOn(s, a)
    requires a.RecordStart? || a.Finish? || a.AddDeadLetter?
    ensures Untouched(s, Step(s, a), j)
  {
    ActorIsOk(s, a);
    assert PhaseOk(s, j);
  }

  lemma OthersUntouched(s: State, a: Action, j: string)
    requires Inv(s) && Enabled(s, a) && j in s.history && j != ActsOn(s, a)
    ensures Untouched(s, Step(s, a), j)
  {
    if a.Ack? || a.AckDeadLetter? || a.AckForRetry? {
      AcksTouchOne(s, a, j);
    } else if a.Enqueue? || a.Claim? || a.Requeue? {
      ReadsTouchOne(s, a, j);
    } else {
      WorkTouchesOne(s, a, j);
    }
  }

  lemma UntouchedPhaseOk(s: State, s': State, j: string)
    requires j in s.history && PhaseOk(s, j) && Untouched(s, s', j)
    ensures PhaseOk(s', j)
  {
  }

  lemma OwnPhaseQueued(s: State, a: Action)
    requires Inv(s) && Enabled(s, a) && (a.Enqueue? || a.Claim?)
    ensures var j := ActsOn(s, a); j in Step(s, a).history && PhaseOk(Step(s, a), j)
  {
    ActorIsOk(s, a);
    if a.Claim? { assert PhaseOk(s, ActsOn(s, a)); }
  }

  lemma OwnPhaseHeld(s: State, a: Action)
    requires Inv(s) && Enabled(s, a) && (a.RecordStart? || a.Finish?)
    ensures var j := ActsOn(s, a); j in Step(s, a).history && PhaseOk(Step(s, a), j)
  {
    ActorIsOk(s, a);
    assert PhaseOk(s, ActsOn(s, a));
  }

  lemma OwnPhaseSettled(s: State, a: Action)
    requires Inv(s) && Enabled(s, a) && (a.Ack? || a.AckDeadLetter?)
    ensures var j := ActsOn(s, a); j in Step(s, a).history && PhaseOk(Step(s, a), j)
  {
    ActorIsOk(s, a);
    assert PhaseOk(s, ActsOn(s, a));
  }

  lemma OwnPhaseBuried(s: State, a: Action)
    requires Inv(s) && Enabled(s, a) && a.AddDeadLetter?
    ensures var j := ActsOn(s, a); j in Step(s, a).history && PhaseOk(Step(s, a), j)
  {
    ActorIsOk(s, a);
    assert PhaseOk(s, ActsOn(s, a));
  }

  lemma OwnPhaseRetried(s: State, a: Action)
    requires Inv(s) && Enabled(s, a) && (a.AckForRetry? || a.Requeue?)
    ensures var j := ActsOn(s, a); j in Step(s, a).history && PhaseOk(Step(s, a), j)
  {
    ActorIsOk(s, a);
    assert PhaseOk(s, ActsOn(s, a));
  }

  lemma OwnPhaseKept(s: State, a: Action)
    requires Inv(s) && Enabled(s, a)
    ensures var j := ActsOn(s, a); j in Step(s, a).history && PhaseOk(Step(s, a), j)
  {
    match a
    case Enqueue(_) => OwnPhaseQueued(s, a);
    case Claim(_) => OwnPhaseQueued(s, a);
    case RecordStart(_) => OwnPhaseHeld(s, a);
    case Finish(_, _) => OwnPhaseHeld(s, a);
    case Ack(_) => OwnPhaseSettled(s, a);
    case AckDeadLetter(_) => OwnPhaseSettled(s, a);
    case AddDeadLetter(_, _, _) => OwnPhaseBuried(s, a);
    case AckForRetry(_) => OwnPhaseRetried(s, a);
    case Requeue(_) => OwnPhaseRetried(s, a);
  }

  lemma UndeliveredKept(s: State, a: Action, m: nat)
    requires Inv(s) && Enabled(s, a)
    requires Step(s, a).broker.delivered <= m < |Step(s, a).broker.stream|
    ensures UndeliveredOk(Step(s, a), m)
  {
    ActorIsOk(s, a);
    if m < |s.broker.stream| { assert UndeliveredOk(s, m); }
  }

  lemma ClaimedPending(s: State, a: Action, m: nat)
    requires Inv(s) && Enabled(s, a) && (a.Enqueue? || a.Claim?) && m in Step(s, a).broker.pending
    ensures PendingOk(Step(s, a), m)
  {
    ActorIsOk(s, a);
    if m in s.broker.pending { assert PendingOk(s, m); }
  }

  lemma WorkedPending(s: State, a: Action, m: nat)
    requires Inv(s) && Enabled(s, a) && !a.Enqueue? && !a.Claim? && m in Step(s, a).broker.pending
    ensures PendingOk(Step(s, a), m)
  {
    ActorIsOk(s, a);
    assert PendingOk(s, m);
  }

  lemma PendingKept(s: State, a: Action, m: nat)
    requires Inv(s) && Enabled(s, a) && m in Step(s, a).broker.pending
    ensures PendingOk(Step(s, a), m)
  {
    if a.Enqueue? || a.Claim? { ClaimedPending(s, a, m); } else { WorkedPending(s, a, m); }
  }

  lemma OtherWorkerKept(s: State, a: Action, w: nat)
    requires Inv(s) && Enabled(s, a) && w < |s.pcs| && (a.Enqueue? || a.w != w)
    ensures WorkerOk(Step(s, a), w)
  {
    ActorIsOk(s, a);
    assert WorkerOk(s, w);
  }

  lemma ActorKept(s: State, a: Action)
    requires Inv(s) && Enabled(s, a) && !a.Enqueue?
    ensures WorkerOk(Step(s, a), a.w)
  {
    ActorIsOk(s, a);
  }

  lemma WorkerKept(s: State, a: Action, w: nat)
    requires Inv(s) && Enabled(s, a) && w < |s.pcs|
    ensures WorkerOk(Step(s, a), w)
  {
    if !a.Enqueue? && a.w == w { ActorKept(s, a); } else { OtherWorkerKept(s, a, w); }
  }

  lemma DeadLetterKept(s: State, a: Action, i: nat)
    requires Inv(s) && Enabled(s, a) && i < |Step(s, a).broker.dlq|
    ensures DeadLetterOk(Step(s, a), i)
  {
    ActorIsOk(s, a);
    if i < |s.broker.dlq| { assert DeadLetterOk(s, i); }
  }

  lemma PhaseKept(s: State, a: Action, j: string)
    requires Inv(s) && Enabled(s, a) && j in Step(s, a).history
    ensures PhaseOk(Step(s, a), j)
  {
    if j == ActsOn(s, a) {
      OwnPhaseKept(s, a);
    } else {
      assert PhaseOk(s, j);
      OthersUntouched(s, a, j);
      UntouchedPhaseOk(s, Step(s, a), j);
    }
  }

  lemma InvStep(s: State, a: Action)
    requires Inv(s) && Enabled(s, a)
    ensures Inv(Step(s, a))
  {
    var s' := Step(s, a);
    forall j | j in s'.history ensures PhaseOk(s', j) { PhaseKept(s, a, j); }
    forall m: nat | s'.broker.delivered <= m < |s'.broker.stream| ensures UndeliveredOk(s', m) { UndeliveredKept(s, a, m); }
    forall m: nat | m in s'.broker.pending ensures PendingOk(s', m) { PendingKept(s, a, m); }
    forall w: nat | w < |s'.pcs| ensures WorkerOk(s', w) { WorkerKept(s, a, w); }
    forall i: nat | i < |s'.broker.dlq| ensures DeadLetterOk(s', i) { DeadLetterKept(s, a, i); }
  }

  lemma {:induction false} InvRuns(s: State, run: seq<Action>, s': State)
    requires Inv(s) && Runs(s, run, s')
    ensures Inv(s')
    decreases |run|
  {
    if run != [] {
      InvStep(s, run[0]);
      InvRuns(Step(s, run[0]), run[1..], s');
    }
  }

  lemma ReachableInv(s: State)
    requires Reachable(s)
    ensures Inv(s)
  {
    var workers: nat, run :| Runs(Initial(workers), run, s);
    InvRuns(Initial(workers), run, s);
  }

  lemma {:induction false} RunsAppend(s: State, first: seq<Action>, middle: State, second: seq<Action>, last: State)
    requires Runs(s, first, middle) && Runs(middle, second, last)
    ensures Runs(s, first + second, last)
    decreases |first|
  {
    if first == [] {
      assert first + second == second;
    } else {
      assert (first + second)[1..] == first[1..] + second;
      RunsAppend(Step(s, first[0]), first[1..], middle, second, last);
    }
  }

  lemma RunsOne(s: State, a: Action)
    requires Enabled(s, a)
    ensures Runs(s, [a], Step(s, a))
  {
    assert Runs(Step(s, a), [a][1..], Step(s, a));
  }

  // ---------- One worker's turn, by outcome ----------

  ghost predicate CanTurn(s: State, w: nat) {
    w < |s.pcs| && s.pcs[w].Polling? && s.broker.delivered < |s.broker.stream|
  }

  ghost predicate Turned(s: State, run: seq<Action>, s': State, w: nat) {
    && Runs(s, run, s') && s'.pcs == s.pcs && run != []
    && forall i :: 0 <= i < |run| ==> !run[i].Enqueue? && run[i].w == w
  }

  // The turn of worker w in which processJob reports `outcome`.
  ghost predicate Reporting(run: seq<Action>, w: nat, outcome: Outcome) {
    |run| > 3 && run[..3] == [Action.Claim(w), RecordStart(w), Finish(w, outcome)]
  }

  lemma Extend(start: State, run: seq<Action>, s: State, a: Action)
    requires Runs(start, run, s) && Enabled(s, a)
    ensures Runs(start, run + [a], Step(s, a))
  {
    RunsOne(s, a);
    RunsAppend(start, run, s, [a], Step(s, a));
  }

  // Claiming a job and counting it, up to the outcome of processJob.
  lemma Begin(s: State, w: nat, outcome: Outcome) returns (run: seq<Action>, s': State)
    requires CanTurn(s, w)
    ensures var m, job := s.broker.delivered, s.broker.stream[s.broker.delivered];
            && run == [Action.Claim(w), RecordStart(w), Finish(w, outcome)] && Runs(s, run, s')
            && s'.broker == XReadGroup(s.broker) && s'.pcs == s.pcs[w := Holding(After(outcome), m, job)]
            && s'.metrics == Finished(s.metrics.(started := s.metrics.started + 1, active := s.metrics.active + 1), outcome)
  {
    var s1 := Step(s, Action.Claim(w));
    var s2 := Step(s1, RecordStart(w));
    s' := Step(s2, Finish(w, outcome));
    RunsOne(s, Action.Claim(w));
    Extend(s, [Action.Claim(w)], s1, RecordStart(w));
    Extend(s, [Action.Claim(w), RecordStart(w)], s2, Finish(w, outcome));
    run := [Action.Claim(w), RecordStart(w), Finish(w, outcome)];
  }

  lemma SuccessTurn(s: State, w: nat) returns (run: seq<Action>, s': State)
    requires CanTurn(s, w)
    ensures Turned(s, run, s', w) && Reporting(run, w, Success)
    ensures s'.broker == XAck(XReadGroup(s.broker), s.broker.delivered)
    ensures s'.metrics == s.metrics.(started := s.metrics.started + 1, completed := s.metrics.completed + 1)
  {
    run, s' := Begin(s, w, Success);
    Extend(s, run, s', Action.Ack(w));
    run, s' := run + [Action.Ack(w)], Step(s', Action.Ack(w));
  }

  lemma DeadLetterTurn(s: State, w: nat, outcome: Outcome, now: int, reason: string) returns (run: seq<Action>, s': State)
    requires CanTurn(s, w)
    requires outcome == Permanent || (outcome == Transient && Exhausts(s.broker.stream[s.broker.delivered]))
    ensures Turned(s, run, s', w) && Reporting(run, w, outcome)
    ensures var m, job := s.broker.delivered, s.broker.stream[s.broker.delivered];
            var buried := if outcome == Permanent then job else job.(attempt := job.attempt + 1);
            s'.broker == XAck(XAddDeadLetter(XReadGroup(s.broker), DeadLetterEntry(buried, now, reason, m)), m)
    ensures s'.metrics == Finished(s.metrics.(started := s.metrics.started + 1, active := s.metrics.active + 1), outcome)
  {
    run, s' := Begin(s, w, outcome);
    Extend(s, run, s', AddDeadLetter(w, now, reason));
    run, s' := run + [AddDeadLetter(w, now, reason)], Step(s', AddDeadLetter(w, now, reason));
    Extend(s, run, s', AckDeadLetter(w));
    run, s' := run + [AckDeadLetter(w)], Step(s', AckDeadLetter(w));
  }

  lemma RetryTurn(s: State, w: nat) returns (run: seq<Action>, s': State)
    requires CanTurn(s, w) && !Exhausts(s.broker.stream[s.broker.delivered])
    ensures Turned(s, run, s', w) && Reporting(run, w, Transient)
    ensures var m, job := s.broker.delivered, s.broker.stream[s.broker.delivered];
            s'.broker == XAdd(XAck(XReadGroup(s.broker), m), job.(attempt := job.attempt + 1))
    ensures s'.metrics == s.metrics.(started := s.metrics.started + 1, failed := s.metrics.failed + 1)
  {
    run, s' := Begin(s, w, Transient);
    Extend(s, run, s', AckForRetry(w));
    run, s' := run + [AckForRetry(w)], Step(s', AckForRetry(w));
    Extend(s, run, s', Requeue(w));
    run, s' := run + [Requeue(w)], Step(s', Requeue(w));
  }
}
