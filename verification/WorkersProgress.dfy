/** The workers finish: every run is bounded by the attempts of its jobs, a state in which nothing
    is left to do has settled every job, and the counters agree with the queue throughout. */
module WorkersProgress {
  import opened JobQueue
  import opened Workers

  // ---------- Sums over the jobs in the order in which they were enqueued ----------

  ghost function Sum(values: map<string, int>, js: seq<string>): int {
    if js == [] then 0
    else (if js[0] in values then values[js[0]] else 0) + Sum(values, js[1..])
  }

  ghost predicate Distinct(js: seq<string>) {
    forall i, k :: 0 <= i < k < |js| ==> js[i] != js[k]
  }

  ghost function At(values: map<string, int>, j: string): int {
    if j in values then values[j] else 0
  }

  lemma {:induction false} SumUnchanged(before: map<string, int>, after: map<string, int>, js: seq<string>)
    requires forall k :: k in js ==> At(after, k) == At(before, k)
    ensures Sum(after, js) == Sum(before, js)
  {
    if js != [] {
      assert js[0] in js;
      SumUnchanged(before, after, js[1..]);
    }
  }

  lemma {:induction false} SumChange(before: map<string, int>, after: map<string, int>, js: seq<string>, j: string)
    requires Distinct(js) && j in js
    requires forall k :: k in js && k != j ==> At(after, k) == At(before, k)
    ensures Sum(after, js) - Sum(before, js) == At(after, j) - At(before, j)
  {
    assert js[0] in js;
    if js[0] == j {
      SumUnchanged(before, after, js[1..]);
    } else {
      SumChange(before, after, js[1..], j);
    }
  }

  lemma {:induction false} SumAppend(values: map<string, int>, js: seq<string>, j: string)
    ensures Sum(values, js + [j]) == Sum(values, js) + At(values, j)
  {
    if js == [] {
      assert Sum(values, [j]) == At(values, j) + Sum(values, []);
    } else {
      assert (js + [j])[1..] == js[1..] + [j];
      SumAppend(values, js[1..], j);
    }
  }

  lemma {:induction false} SumNonNegative(values: map<string, int>, js: seq<string>)
    requires forall k :: k in js ==> At(values, k) >= 0
    ensures Sum(values, js) >= 0
  {
    if js != [] {
      assert js[0] in js;
      SumNonNegative(values, js[1..]);
    }
  }

  // The order lists every job once.
  ghost predicate OrderOk(s: State) {
    && Distinct(s.order)
    && (forall j :: j in s.order <==> j in s.history)
  }

  lemma OrderStep(s: State, a: Action)
    requires Inv(s) && OrderOk(s) && Enabled(s, a)
    ensures OrderOk(Step(s, a))
  {
  }

  /** An action changes the value of at most one job, and adds that job if it is new. */
  lemma SumStep(s: State, a: Action, before: map<string, int>, after: map<string, int>)
    requires Inv(s) && OrderOk(s) && Enabled(s, a)
    requires forall j :: j in s.history && j != ActsOn(s, a) ==> At(after, j) == At(before, j)
    requires a.Enqueue? ==> At(before, a.job.id) == 0
    ensures Sum(after, Step(s, a).order) - Sum(before, s.order) == At(after, ActsOn(s, a)) - At(before, ActsOn(s, a))
  {
    match a
    case Enqueue(job) =>
      SumAppend(after, s.order, job.id);
      SumUnchanged(before, after, s.order);
    case Claim(w) =>
      assert UndeliveredOk(s, s.broker.delivered);
      SumChange(before, after, s.order, ActsOn(s, a));
    case _ =>
      assert WorkerOk(s, a.w);
      SumChange(before, after, s.order, ActsOn(s, a));
  }

  // ---------- Termination ----------

  /** A bound on the actions still to be taken for job j. */
  ghost function JobWeight(s: State, j: string): int
    requires j in s.history
  {
    var past := s.history[j];
    var left := past.original.maxAttempts - past.claims;
    match past.phase
    case Waiting(_) => 5 * left + 1
    case Held(_, w) =>
      if InStage(s, w, Claimed) then 5 * left + 5
      else if InStage(s, w, Running) then 5 * left + 4
      else 5 * left + 3
    case Gap(_) => 5 * left + 2
    case Dying(_, _, _, _) => 1
    case Done(_) => 0
    case Dead(_, _) => 0
  }

  ghost function Weights(s: State): map<string, int> {
    map j | j in s.history :: JobWeight(s, j)
  }

  ghost function Weight(s: State): int {
    Sum(Weights(s), s.order)
  }

  // Every job limits its attempts, as CompleteUpload's do.
  ghost predicate Limited(s: State) {
    forall j :: j in s.history ==> s.history[j].original.maxAttempts > 0
  }

  lemma LimitedStep(s: State, a: Action)
    requires Limited(s) && Enabled(s, a) && (a.Enqueue? ==> a.job.maxAttempts > 0)
    ensures Limited(Step(s, a))
  {
    assert forall j :: j in Step(s, a).history && j in s.history ==> Step(s, a).history[j].original == s.history[j].original || a.Enqueue?;
  }

  lemma WeightStep(s: State, a: Action)
    requires Inv(s) && OrderOk(s) && Enabled(s, a) && Limited(s)
    ensures if a.Enqueue? then Weight(Step(s, a)) == Weight(s) + 5 * a.job.maxAttempts + 1
            else Weight(Step(s, a)) < Weight(s)
  {
    var s' := Step(s, a);
    var j := ActsOn(s, a);
    OwnWeight(s, a);
    forall k | k in s.history && k != j ensures At(Weights(s'), k) == At(Weights(s), k) {
      OtherWeight(s, a, k);
    }
    SumStep(s, a, Weights(s), Weights(s'));
  }

  lemma OwnWeight(s: State, a: Action)
    requires Inv(s) && Enabled(s, a) && Limited(s)
    ensures ActsOn(s, a) in Step(s, a).history
    ensures if a.Enqueue? then JobWeight(Step(s, a), a.job.id) == 5 * a.job.maxAttempts + 1
            else ActsOn(s, a) in s.history && JobWeight(Step(s, a), ActsOn(s, a)) < JobWeight(s, ActsOn(s, a))
  {
    ActorIsOk(s, a);
    if !a.Enqueue? { assert PhaseOk(s, ActsOn(s, a)); }
  }

  lemma OtherWeight(s: State, a: Action, j: string)
    requires Inv(s) && Enabled(s, a) && j in s.history && j != ActsOn(s, a)
    ensures j in Step(s, a).history && JobWeight(Step(s, a), j) == JobWeight(s, j)
  {
    ActorIsOk(s, a);
    OthersUntouched(s, a, j);
    assert PhaseOk(s, j);
  }

  lemma WeightNonNegative(s: State)
    requires Inv(s) && OrderOk(s) && Limited(s)
    ensures Weight(s) >= 0
  {
    forall k | k in s.order ensures At(Weights(s), k) >= 0 { assert PhaseOk(s, k); }
    SumNonNegative(Weights(s), s.order);
  }

  /** The actions that the jobs enqueued along a run pay for: one to enqueue the job, one more
      than five for each attempt it is allowed. */
  ghost function Budget(run: seq<Action>): int {
    if run == [] then 0
    else (if run[0].Enqueue? then 5 * run[0].job.maxAttempts + 2 else 0) + Budget(run[1..])
  }

  ghost predicate AllLimited(run: seq<Action>) {
    forall i :: 0 <= i < |run| && run[i].Enqueue? ==> run[i].job.maxAttempts > 0
  }

  lemma TailLimited(run: seq<Action>)
    requires AllLimited(run) && run != []
    ensures AllLimited(run[1..])
  {
    assert forall i :: 0 <= i < |run[1..]| ==> run[1..][i] == run[i + 1];
  }

  lemma {:induction false} RunWeight(s: State, run: seq<Action>, s': State)
    requires Inv(s) && OrderOk(s) && Limited(s) && Runs(s, run, s') && AllLimited(run)
    ensures OrderOk(s') && Limited(s')
    ensures |run| + Weight(s') <= Weight(s) + Budget(run)
    decreases |run|
  {
    if run != [] {
      var a, next := run[0], Step(s, run[0]);
      InvStep(s, a);
      OrderStep(s, a);
      LimitedStep(s, a);
      WeightStep(s, a);
      TailLimited(run);
      RunWeight(next, run[1..], s');
    }
  }

  /** However the workers interleave, a run takes no more actions than its jobs have paid for;
      without new jobs every run ends. */
  lemma Termination(workers: nat, run: seq<Action>, s: State)
    requires Runs(Initial(workers), run, s) && AllLimited(run)
    ensures |run| <= Budget(run)
  {
    InvRuns(Initial(workers), run, s);
    RunWeight(Initial(workers), run, s);
    WeightNonNegative(s);
  }

  /** When no worker can take another step, every job has been completed or dead-lettered. */
  lemma QuiescentMeansSettled(s: State)
    requires Reachable(s) && |s.pcs| > 0
    requires forall a :: Enabled(s, a) ==> a.Enqueue?
    ensures forall j :: j in s.history ==> s.history[j].phase.Done? || s.history[j].phase.Dead?
    ensures s.broker.delivered == |s.broker.stream| && s.broker.pending == {}
  {
    ReachableInv(s);
    forall w: nat | w < |s.pcs| ensures s.pcs[w].Polling? {
      if !s.pcs[w].Polling? { var _ := NextMove(s, w); }
    }
    assert !Enabled(s, Action.Claim(0));
    forall j | j in s.history ensures s.history[j].phase.Done? || s.history[j].phase.Dead? {
      assert PhaseOk(s, j);
    }
    if m :| m in s.broker.pending {
      assert false;
    }
  }

  // A worker that is not polling has a step of its own to take.
  ghost function NextMove(s: State, w: nat): (a: Action)
    requires w < |s.pcs| && !s.pcs[w].Polling?
    ensures Enabled(s, a) && !a.Enqueue?
  {
    match s.pcs[w]
    case DeadLettering(_, _) => AckDeadLetter(w)
    case Requeueing(_) => Requeue(w)
    case Holding(Claimed, _, _) => RecordStart(w)
    case Holding(Running, _, _) => Finish(w, Success)
    case Holding(Succeeded, _, _) => Action.Ack(w)
    case Holding(FailedPermanently, _, _) => AddDeadLetter(w, 0, "")
    case Holding(FailedTransiently, _, job) => if Exhausts(job) then AddDeadLetter(w, 0, "") else AckForRetry(w)
  }

  // ---------- The counters ----------

  ghost function Count(pcs: seq<Pc>, stage: Stage): nat {
    if pcs == [] then 0
    else (if pcs[0].Holding? && pcs[0].stage == stage then 1 else 0) + Count(pcs[1..], stage)
  }

  lemma {:induction false} CountUpdate(pcs: seq<Pc>, w: nat, pc: Pc, stage: Stage)
    requires w < |pcs|
    ensures Count(pcs[w := pc], stage)
         == Count(pcs, stage) - (if pcs[w].Holding? && pcs[w].stage == stage then 1 else 0)
                              + (if pc.Holding? && pc.stage == stage then 1 else 0)
  {
    if w == 0 {
      assert pcs[w := pc][1..] == pcs[1..];
    } else {
      assert pcs[w := pc][1..] == pcs[1..][w - 1 := pc];
      CountUpdate(pcs[1..], w - 1, pc, stage);
    }
  }

  ghost function ClaimsOf(s: State): map<string, int> { map j | j in s.history :: s.history[j].claims }

  ghost function DoneOf(s: State): map<string, int> {
    map j | j in s.history :: IsDone(s.history[j])
  }

  ghost function PermanentOf(s: State): map<string, int> {
    map j | j in s.history :: IsPermanent(s.history[j])
  }

  // The starts are the claims that are not still on their way to being counted.
  ghost predicate StartedOk(s: State) {
    && s.metrics.started == s.metrics.completed + s.metrics.failed + s.metrics.active
    && s.metrics.active == Count(s.pcs, Running)
    && s.metrics.started + Count(s.pcs, Claimed) == Sum(ClaimsOf(s), s.order)
  }

  ghost predicate CompletedOk(s: State) {
    s.metrics.completed == Sum(DoneOf(s), s.order) + Count(s.pcs, Succeeded)
  }

  ghost predicate PermanentOk(s: State) {
    s.metrics.permanent == Sum(PermanentOf(s), s.order) + Count(s.pcs, FailedPermanently)
  }

  /** The counters reconcile with the workers and with the queue. */
  ghost predicate Reconciled(s: State) {
    StartedOk(s) && CompletedOk(s) && PermanentOk(s)
  }

  ghost function Stages(s: State, w: nat, stage: Stage): nat {
    if InStage(s, w, stage) then 1 else 0
  }

  lemma CountStep(s: State, a: Action, stage: Stage)
    requires Enabled(s, a)
    ensures Count(Step(s, a).pcs, stage) - Count(s.pcs, stage)
         == if a.Enqueue? then 0 else Stages(Step(s, a), a.w, stage) - Stages(s, a.w, stage)
  {
    if !a.Enqueue? {
      var s' := Step(s, a);
      CountUpdate(s.pcs, a.w, s'.pcs[a.w], stage);
      assert s'.pcs == s.pcs[a.w := s'.pcs[a.w]];
    }
  }

  // No action touches the past of another job.
  lemma OwnHistoryOnly(s: State, a: Action)
    requires Inv(s) && Enabled(s, a)
    ensures ActorOk(s, a)
    ensures var s', j := Step(s, a), ActsOn(s, a);
            && j in s'.history && (a.Enqueue? <==> j !in s.history)
            && (forall k :: k in s.history && k != j ==> k in s'.history && s'.history[k] == s.history[k])
  {
    ActorIsOk(s, a);
  }

  lemma ClaimsStep(s: State, a: Action)
    requires Inv(s) && OrderOk(s) && Enabled(s, a)
    ensures Sum(ClaimsOf(Step(s, a)), Step(s, a).order) - Sum(ClaimsOf(s), s.order)
         == if a.Claim? then 1 else 0
  {
    OwnHistoryOnly(s, a);
    SumStep(s, a, ClaimsOf(s), ClaimsOf(Step(s, a)));
  }

  ghost function IsDone(past: Past): int { if past.phase.Done? then 1 else 0 }

  ghost function IsPermanent(past: Past): int {
    if (past.phase.Dying? || past.phase.Dead?) && past.phase.permanent then 1 else 0
  }

  // What an action makes of the past of its own job.
  lemma OwnMove(s: State, a: Action)
    requires Inv(s) && Enabled(s, a)
    ensures ActorOk(s, a)
    ensures var j, s' := ActsOn(s, a), Step(s, a);
            && j in s'.history && (!a.Enqueue? ==> j in s.history)
            && IsDone(s'.history[j]) - (if a.Enqueue? then 0 else IsDone(s.history[j])) == (if a.Ack? then 1 else 0)
            && IsPermanent(s'.history[j]) - (if a.Enqueue? then 0 else IsPermanent(s.history[j]))
               == if a.AddDeadLetter? && InStage(s, a.w, FailedPermanently) then 1 else 0
  {
    OwnHistoryOnly(s, a);
    if !a.Enqueue? { assert PhaseOk(s, ActsOn(s, a)); }
  }

  lemma DoneStep(s: State, a: Action)
    requires Inv(s) && OrderOk(s) && Enabled(s, a)
    ensures Sum(DoneOf(Step(s, a)), Step(s, a).order) - Sum(DoneOf(s), s.order)
         == if a.Ack? then 1 else 0
  {
    OwnHistoryOnly(s, a);
    OwnMove(s, a);
    SumStep(s, a, DoneOf(s), DoneOf(Step(s, a)));
  }

  lemma PermanentStep(s: State, a: Action)
    requires Inv(s) && OrderOk(s) && Enabled(s, a)
    ensures Sum(PermanentOf(Step(s, a)), Step(s, a).order) - Sum(PermanentOf(s), s.order)
         == if a.AddDeadLetter? && InStage(s, a.w, FailedPermanently) then 1 else 0
  {
    OwnHistoryOnly(s, a);
    OwnMove(s, a);
    SumStep(s, a, PermanentOf(s), PermanentOf(Step(s, a)));
  }

  // By how much an action changes the number of workers in a stage.
  ghost function Moved(s: State, a: Action, stage: Stage): int
    requires Enabled(s, a)
  {
    if a.Enqueue? then 0 else Stages(Step(s, a), a.w, stage) - Stages(s, a.w, stage)
  }

  lemma MetricsMove(s: State, a: Action)
    requires Enabled(s, a)
    ensures var m, m' := s.metrics, Step(s, a).metrics;
            && m'.started - m.started + Moved(s, a, Claimed) == (if a.Claim? then 1 else 0)
            && m'.active - m.active == Moved(s, a, Running)
            && m'.started - m.started == (m'.completed - m.completed) + (m'.failed - m.failed) + (m'.active - m.active)
            && m'.completed - m.completed == (if a.Ack? then 1 else 0) + Moved(s, a, Succeeded)
            && m'.permanent - m.permanent
               == (if a.AddDeadLetter? && InStage(s, a.w, FailedPermanently) then 1 else 0) + Moved(s, a, FailedPermanently)
  {
  }

  lemma StartedStep(s: State, a: Action)
    requires Inv(s) && OrderOk(s) && Enabled(s, a) && StartedOk(s)
    ensures StartedOk(Step(s, a))
  {
    ClaimsStep(s, a);
    CountStep(s, a, Claimed);
    CountStep(s, a, Running);
    MetricsMove(s, a);
  }

  lemma CompletedStep(s: State, a: Action)
    requires Inv(s) && OrderOk(s) && Enabled(s, a) && CompletedOk(s)
    ensures CompletedOk(Step(s, a))
  {
    DoneStep(s, a);
    CountStep(s, a, Succeeded);
    MetricsMove(s, a);
  }

  lemma PermanentsStep(s: State, a: Action)
    requires Inv(s) && OrderOk(s) && Enabled(s, a) && PermanentOk(s)
    ensures PermanentOk(Step(s, a))
  {
    PermanentStep(s, a);
    CountStep(s, a, FailedPermanently);
    MetricsMove(s, a);
  }

  lemma {:induction false} ReconciledRuns(s: State, run: seq<Action>, s': State)
    requires Inv(s) && OrderOk(s) && Reconciled(s) && Runs(s, run, s')
    ensures Reconciled(s')
    decreases |run|
  {
    if run != [] {
      InvStep(s, run[0]);
      OrderStep(s, run[0]);
      StartedStep(s, run[0]);
      CompletedStep(s, run[0]);
      PermanentsStep(s, run[0]);
      ReconciledRuns(Step(s, run[0]), run[1..], s');
    }
  }

  lemma {:induction false} NoneInStage(pcs: seq<Pc>, stage: Stage)
    requires forall w :: 0 <= w < |pcs| ==> pcs[w].Polling?
    ensures Count(pcs, stage) == 0
  {
    if pcs != [] { NoneInStage(pcs[1..], stage); }
  }

  /** started = completed + failed + active at every moment; the starts are the claims not still on
      their way to being counted, and likewise for completions and permanent failures. */
  lemma CountersReconcile(s: State)
    requires Reachable(s)
    ensures Reconciled(s)
  {
    var workers: nat, run :| Runs(Initial(workers), run, s);
    forall stage { NoneInStage(Initial(workers).pcs, stage); }
    ReconciledRuns(Initial(workers), run, s);
  }
}
