/** No job is lost, duplicated or run too often, in any interleaving of the workers. */
module WorkersSafety {
  import opened JobQueue
  import opened Workers

  // Where a job can be found, read off the stream, the pending list and the dead-letter stream.

  ghost predicate Undelivered(s: State, j: string) {
    exists m :: s.broker.delivered <= m < |s.broker.stream| && s.broker.stream[m].id == j
  }

  ghost predicate Pending(s: State, j: string) {
    exists m :: m in s.broker.pending && m < |s.broker.stream| && s.broker.stream[m].id == j
  }

  ghost predicate DeadLettered(s: State, j: string) {
    exists i :: 0 <= i < |s.broker.dlq| && s.broker.dlq[i].job.id == j
  }

  // Some worker has recorded the success of the job and then acknowledged it.
  ghost predicate Completed(s: State, j: string) {
    j in s.history && s.history[j].phase.Done?
  }

  ghost predicate BetweenAckAndEnqueue(s: State, j: string) {
    exists w :: 0 <= w < |s.pcs| && s.pcs[w].Requeueing? && s.pcs[w].job.id == j
  }

  ghost predicate BetweenPipelineCommands(s: State, j: string) {
    exists w :: 0 <= w < |s.pcs| && s.pcs[w].DeadLettering? && s.pcs[w].job.id == j
  }

  ghost function One(b: bool): nat { if b then 1 else 0 }

  ghost function Places(s: State, j: string): nat {
    One(Undelivered(s, j)) + One(Pending(s, j)) + One(Completed(s, j)) + One(DeadLettered(s, j))
  }

  // Each place, read off the phase of the job.

  lemma UndeliveredPhase(s: State, j: string)
    requires Inv(s) && j in s.history
    ensures Undelivered(s, j) <==> s.history[j].phase.Waiting?
  {
    assert PhaseOk(s, j);
    if m :| s.broker.delivered <= m < |s.broker.stream| && s.broker.stream[m].id == j { assert UndeliveredOk(s, m); }
  }

  lemma PendingPhase(s: State, j: string)
    requires Inv(s) && j in s.history
    ensures Pending(s, j) <==> s.history[j].phase.Held? || s.history[j].phase.Dying?
  {
    assert PhaseOk(s, j);
    if m :| m in s.broker.pending && m < |s.broker.stream| && s.broker.stream[m].id == j { assert PendingOk(s, m); }
  }

  lemma DeadLetteredPhase(s: State, j: string)
    requires Inv(s) && j in s.history
    ensures DeadLettered(s, j) <==> s.history[j].phase.Dead? || s.history[j].phase.Dying?
  {
    assert PhaseOk(s, j);
    if i :| 0 <= i < |s.broker.dlq| && s.broker.dlq[i].job.id == j { assert DeadLetterOk(s, i); }
  }

  lemma BetweenPhase(s: State, j: string)
    requires Inv(s) && j in s.history
    ensures BetweenAckAndEnqueue(s, j) <==> s.history[j].phase.Gap?
    ensures BetweenPipelineCommands(s, j) <==> s.history[j].phase.Dying?
  {
    assert PhaseOk(s, j);
    if w :| 0 <= w < |s.pcs| && s.pcs[w].Requeueing? && s.pcs[w].job.id == j { assert WorkerOk(s, w); }
    if w :| 0 <= w < |s.pcs| && s.pcs[w].DeadLettering? && s.pcs[w].job.id == j { assert WorkerOk(s, w); }
  }

  /** Conservation, command by command: a job that was enqueued is in exactly one place, except
      that it is nowhere between the two commands of a retry and in two places between the two
      commands of the dead-letter pipeline.  A job that was never enqueued is nowhere. */
  lemma Conservation(s: State, j: string)
    requires Reachable(s)
    ensures j in s.history ==>
              Places(s, j) + One(BetweenAckAndEnqueue(s, j)) == 1 + One(BetweenPipelineCommands(s, j))
    ensures BetweenPipelineCommands(s, j) ==> Pending(s, j) && DeadLettered(s, j)
    ensures j !in s.history ==> Places(s, j) == 0
  {
    ReachableInv(s);
    if j in s.history {
      UndeliveredPhase(s, j);
      PendingPhase(s, j);
      DeadLetteredPhase(s, j);
      BetweenPhase(s, j);
    } else {
      forall m | s.broker.delivered <= m < |s.broker.stream| ensures s.broker.stream[m].id != j { assert UndeliveredOk(s, m); }
      forall m | m in s.broker.pending && m < |s.broker.stream| ensures s.broker.stream[m].id != j { assert PendingOk(s, m); }
      forall i | 0 <= i < |s.broker.dlq| ensures s.broker.dlq[i].job.id != j { assert DeadLetterOk(s, i); }
      forall w | 0 <= w < |s.pcs| && s.pcs[w].DeadLettering? ensures s.pcs[w].job.id != j { assert WorkerOk(s, w); }
    }
  }

  /** With every retry and every dead-lettering seen as one step, the four places partition the jobs. */
  lemma ExactlyOnePlace(s: State, j: string)
    requires Reachable(s) && j in s.history
    requires forall w :: 0 <= w < |s.pcs| ==> !s.pcs[w].Requeueing? && !s.pcs[w].DeadLettering?
    ensures Places(s, j) == 1
  {
    Conservation(s, j);
  }

  ghost predicate Live(s: State, m: nat) {
    m < |s.broker.stream| && (s.broker.delivered <= m || m in s.broker.pending)
  }

  /** One job is never carried by two messages that can still be processed, held by two workers
      or written twice to the dead-letter stream. */
  lemma NoDuplicates(s: State)
    requires Reachable(s)
    ensures forall m: nat, n: nat :: Live(s, m) && Live(s, n) && s.broker.stream[m].id == s.broker.stream[n].id ==> m == n
    ensures forall v, w :: 0 <= v < w < |s.pcs| && !s.pcs[v].Polling? && !s.pcs[w].Polling? ==>
              s.pcs[v].job.id != s.pcs[w].job.id
    ensures forall i, k :: 0 <= i < k < |s.broker.dlq| ==> s.broker.dlq[i].job.id != s.broker.dlq[k].job.id
  {
    ReachableInv(s);
    forall m: nat, n: nat | Live(s, m) && Live(s, n) && s.broker.stream[m].id == s.broker.stream[n].id ensures m == n {
      if s.broker.delivered <= m { assert UndeliveredOk(s, m); } else { assert PendingOk(s, m); }
      if s.broker.delivered <= n { assert UndeliveredOk(s, n); } else { assert PendingOk(s, n); }
    }
    forall v, w | 0 <= v < w < |s.pcs| && !s.pcs[v].Polling? && !s.pcs[w].Polling? ensures s.pcs[v].job.id != s.pcs[w].job.id {
      assert WorkerOk(s, v) && WorkerOk(s, w);
    }
    forall i, k | 0 <= i < k < |s.broker.dlq| ensures s.broker.dlq[i].job.id != s.broker.dlq[k].job.id {
      assert DeadLetterOk(s, i) && DeadLetterOk(s, k);
    }
  }

  // ---------- How often a job runs ----------

  /** How often job j is claimed along a run. */
  ghost function Claims(s: State, run: seq<Action>, j: string): nat
    decreases |run|
  {
    if run == [] || !Enabled(s, run[0]) then 0
    else One(run[0].Claim? && ActsOn(s, run[0]) == j) + Claims(Step(s, run[0]), run[1..], j)
  }

  ghost function Counted(s: State, j: string): nat
  {
    if j in s.history then s.history[j].claims else 0
  }

  lemma {:induction false} ClaimsAreCounted(s: State, run: seq<Action>, s': State, j: string)
    requires Inv(s) && Runs(s, run, s')
    ensures Counted(s', j) == Counted(s, j) + Claims(s, run, j)
    decreases |run|
  {
    if run != [] {
      var a := run[0];
      InvStep(s, a);
      if a.Claim? { assert UndeliveredOk(s, s.broker.delivered); }
      assert Counted(Step(s, a), j) == Counted(s, j) + One(a.Claim? && ActsOn(s, a) == j);
      ClaimsAreCounted(Step(s, a), run[1..], s', j);
    }
  }

  // The job as it was enqueued, apart from the attempt counter.
  ghost predicate SameJob(job: Job, original: Job) {
    job == original.(attempt := job.attempt)
  }

  /** The attempt counter tells how often the job has been claimed: exactly that often while it
      waits, once less while it is being processed.  No step changes anything else about the job. */
  lemma RunCount(workers: nat, run: seq<Action>, s: State, m: nat)
    requires Runs(Initial(workers), run, s) && Live(s, m)
    ensures var job := s.broker.stream[m];
            && job.id in s.history && SameJob(job, s.history[job.id].original)
            && Claims(Initial(workers), run, job.id) == job.attempt + One(m in s.broker.pending)
  {
    var j := s.broker.stream[m].id;
    InvRuns(Initial(workers), run, s);
    ClaimsAreCounted(Initial(workers), run, s, j);
    if s.broker.delivered <= m { assert UndeliveredOk(s, m); } else { assert PendingOk(s, m); }
    assert PhaseOk(s, j);
  }

  /** A completed job was claimed once more often than the counter of the message it completed with
      says, and that message has been delivered and acknowledged. */
  lemma CompletedRunCount(workers: nat, run: seq<Action>, s: State, j: string)
    requires Runs(Initial(workers), run, s) && Completed(s, j)
    ensures var m := s.history[j].phase.msg;
            && m < s.broker.delivered && m < |s.broker.stream| && m !in s.broker.pending
            && s.broker.stream[m].id == j && SameJob(s.broker.stream[m], s.history[j].original)
            && Claims(Initial(workers), run, j) == s.broker.stream[m].attempt + 1
  {
    InvRuns(Initial(workers), run, s);
    ClaimsAreCounted(Initial(workers), run, s, j);
    assert PhaseOk(s, j);
  }

  /** So was the job of a worker between a retry's two commands, except that its counter has already
      been raised. */
  lemma RetriedRunCount(workers: nat, run: seq<Action>, s: State, w: nat)
    requires Runs(Initial(workers), run, s) && w < |s.pcs| && s.pcs[w].Requeueing?
    ensures var job := s.pcs[w].job;
            && job.id in s.history && SameJob(job, s.history[job.id].original)
            && Claims(Initial(workers), run, job.id) == job.attempt > 0
  {
    InvRuns(Initial(workers), run, s);
    ClaimsAreCounted(Initial(workers), run, s, s.pcs[w].job.id);
    assert WorkerOk(s, w) && PhaseOk(s, s.pcs[w].job.id);
  }

  /** A job dead-lettered by a permanent failure ran once more than its counter says, within its
      limit; one dead-lettered by a failed retry ran as often as its counter and its limit say. */
  lemma DeadLetterRunCount(workers: nat, run: seq<Action>, s: State, i: nat)
    requires Runs(Initial(workers), run, s) && i < |s.broker.dlq|
    ensures var job := s.broker.dlq[i].job;
            var n := Claims(Initial(workers), run, job.id);
            && job.id in s.history && SameJob(job, s.history[job.id].original)
            && (s.history[job.id].phase.Dying? || s.history[job.id].phase.Dead?)
            && if s.history[job.id].phase.permanent
               then n == job.attempt + 1 && (job.maxAttempts > 0 ==> n <= job.maxAttempts)
               else n == job.attempt == job.maxAttempts
  {
    var j := s.broker.dlq[i].job.id;
    InvRuns(Initial(workers), run, s);
    ClaimsAreCounted(Initial(workers), run, s, j);
    assert DeadLetterOk(s, i);
    assert PhaseOk(s, j);
  }

  // The entry names a message that carried its job: the very job, or with one attempt fewer on it.
  ghost predicate Traced(s: State, i: nat)
    requires i < |s.broker.dlq|
  {
    var entry := s.broker.dlq[i];
    && entry.origMsgId < |s.broker.stream|
    && var job := s.broker.stream[entry.origMsgId];
       entry.job == job || (Exhausts(job) && entry.job == job.(attempt := job.attempt + 1))
  }

  lemma TracedStep(s: State, a: Action, i: nat)
    requires Inv(s) && Enabled(s, a) && i < |Step(s, a).broker.dlq|
    requires i < |s.broker.dlq| ==> Traced(s, i)
    ensures Traced(Step(s, a), i)
  {
    if i == |s.broker.dlq| {
      ActorIsOk(s, a);
      assert PhaseOk(s, ActsOn(s, a));
    }
  }

  /** Every dead letter names the message its job came from: a permanent failure leaves the job as the
      message had it, an exhausted retry adds the attempt that exhausted it. */
  lemma {:induction false} DeadLettersAreTraced(s: State, run: seq<Action>, s': State, i: nat)
    requires Inv(s) && Runs(s, run, s') && i < |s'.broker.dlq|
    requires forall k :: 0 <= k < |s.broker.dlq| ==> Traced(s, k)
    ensures Traced(s', i)
    decreases |run|
  {
    if run != [] {
      var next := Step(s, run[0]);
      InvStep(s, run[0]);
      forall k: nat | k < |next.broker.dlq| ensures Traced(next, k) { TracedStep(s, run[0], k); }
      DeadLettersAreTraced(next, run[1..], s', i);
    }
  }

  /** A job with a limit on its attempts never runs more often than that. */
  lemma AtMostMaxAttempts(workers: nat, run: seq<Action>, s: State, j: string)
    requires Runs(Initial(workers), run, s) && j in s.history && s.history[j].original.maxAttempts > 0
    ensures Claims(Initial(workers), run, j) <= s.history[j].original.maxAttempts
  {
    InvRuns(Initial(workers), run, s);
    ClaimsAreCounted(Initial(workers), run, s, j);
    assert PhaseOk(s, j);
  }

  /** The limit is needed: a job without one can run any number of times. */
  lemma {:induction false} UnlimitedWithoutMaxAttempts(job: Job, n: nat) returns (run: seq<Action>, s: State)
    requires job.attempt == 0 && job.maxAttempts <= 0
    ensures Runs(Initial(1), run, s) && s.pcs == [Polling]
    ensures s.broker.delivered + 1 == |s.broker.stream| && s.broker.stream[s.broker.delivered] == job.(attempt := n)
    ensures Claims(Initial(1), run, job.id) == n
  {
    if n == 0 {
      run, s := [Enqueue(job)], Step(Initial(1), Enqueue(job));
      RunsOne(Initial(1), Enqueue(job));
    } else {
      run, s := UnlimitedWithoutMaxAttempts(job, n - 1);
      var retry, next := RetryTurn(s, 0);
      RunsAppend(Initial(1), run, s, retry, next);
      run, s := run + retry, next;
    }
    InvRuns(Initial(1), run, s);
    RunCount(1, run, s, s.broker.delivered);
  }
}
