/** processNext of services/worker/internal/processor/processor.go, one worker's turn, as it is
    written; processJob is the outcome it reports. */
module Processor {
  import opened JobQueue
  import opened Workers

  class WorkerMetrics {
    var jobsStarted: int
    var jobsCompleted: int
    var jobsFailed: int
    var jobsPermanent: int
    var activeWorkers: int

    function Value(): Metrics
      reads this
    {
      Metrics(jobsStarted, jobsCompleted, jobsFailed, jobsPermanent, activeWorkers)
    }

    method RecordStart()
      modifies this
      ensures Value() == old(Value()).(started := old(jobsStarted) + 1, active := old(activeWorkers) + 1)
    {
      jobsStarted := jobsStarted + 1;
      activeWorkers := activeWorkers + 1;
    }

    method RecordComplete()
      modifies this
      ensures Value() == Finished(old(Value()), Success)
    {
      activeWorkers := activeWorkers - 1;
      jobsCompleted := jobsCompleted + 1;
    }

    method RecordFailure(permanent: bool)
      modifies this
      ensures Value() == Finished(old(Value()), if permanent then Permanent else Transient)
    {
      activeWorkers := activeWorkers - 1;
      jobsFailed := jobsFailed + 1;
      if permanent {
        jobsPermanent := jobsPermanent + 1;
      }
    }
  }

  class Worker {
    const queue: Queue
    const metrics: WorkerMetrics

    constructor (queue: Queue, metrics: WorkerMetrics)
      ensures this.queue == queue && this.metrics == metrics
    {
      this.queue := queue;
      this.metrics := metrics;
    }

    // The protocol state s describes the real queue and counters.
    ghost predicate Describes(s: State)
      reads queue, metrics
    {
      s.broker == queue.Redis() && s.metrics == metrics.Value()
    }

    /** One turn is a run of the protocol by this worker alone: the interleaving of the workers is
        an interleaving of the very commands that this code issues.  The turn returns the worker to
        polling, and it is the empty run exactly when there is no job to deliver.

        The claimed message m is never left pending.  A success completes its job; a permanent
        failure buries it as it is; any other failure gives it one more attempt and puts it back at
        the end of the stream while attempts are left, and buries it otherwise. */
    method ProcessNext(outcome: Outcome, reason: string, now: int, ghost s: State, ghost w: nat)
      returns (claimed: bool, ghost run: seq<Action>, ghost s': State)
      requires Describes(s) && s.broker.Valid() && w < |s.pcs| && s.pcs[w].Polling?
      modifies queue, metrics
      ensures Runs(s, run, s') && Describes(s') && s'.pcs == s.pcs
      ensures forall i :: 0 <= i < |run| ==> !run[i].Enqueue? && run[i].w == w
      ensures claimed <==> run != []
      ensures claimed <==> old(queue.delivered) < |old(queue.stream)|
      ensures claimed ==> Reporting(run, w, outcome)
      ensures !claimed ==> queue.Redis() == old(queue.Redis()) && metrics.Value() == old(metrics.Value())
      ensures claimed ==>
                && queue.delivered == old(queue.delivered) + 1 && queue.pending == old(queue.pending)
                && metrics.jobsStarted == old(metrics.jobsStarted) + 1 && metrics.activeWorkers == old(metrics.activeWorkers)
      ensures claimed && outcome == Success ==>
                && queue.stream == old(queue.stream) && queue.dlq == old(queue.dlq)
                && metrics.jobsCompleted == old(metrics.jobsCompleted) + 1
                && metrics.jobsFailed == old(metrics.jobsFailed) && metrics.jobsPermanent == old(metrics.jobsPermanent)
      ensures claimed && outcome != Success ==>
                metrics.jobsCompleted == old(metrics.jobsCompleted) && metrics.jobsFailed == old(metrics.jobsFailed) + 1
      ensures claimed && outcome == Permanent ==>
                var m := old(queue.delivered);
                && queue.stream == old(queue.stream)
                && queue.dlq == old(queue.dlq) + [DeadLetterEntry(old(queue.stream)[m], now, reason, m)]
                && metrics.jobsPermanent == old(metrics.jobsPermanent) + 1
      ensures claimed && outcome == Transient ==>
                var m := old(queue.delivered);
                var job := old(queue.stream)[m];
                var again := job.(attempt := job.attempt + 1);
                && metrics.jobsPermanent == old(metrics.jobsPermanent)
                && (job.maxAttempts > 0 && again.attempt >= job.maxAttempts ==>
                      queue.stream == old(queue.stream) && queue.dlq == old(queue.dlq) + [DeadLetterEntry(again, now, reason, m)])
                && (job.maxAttempts <= 0 || again.attempt < job.maxAttempts ==>
                      queue.stream == old(queue.stream) + [again] && queue.dlq == old(queue.dlq))
    {
      run, s' := [], s;
      var result := queue.ClaimPending();
      claimed := result.Claim?;
      if result.Nothing? {
        return;
      }
      metrics.RecordStart();
      match outcome {
        case Success =>
          metrics.RecordComplete();
          queue.Ack(result.messageId);
          run, s' := SuccessTurn(s, w);
        case Permanent =>
          metrics.RecordFailure(true);
          queue.MoveToDeadLetter(result.messageId, result.job, reason, now);
          run, s' := DeadLetterTurn(s, w, outcome, now, reason);
        case Transient =>
          metrics.RecordFailure(false);
          var _ := queue.NackWithAttempt(result.messageId, result.job, reason, now);
          if Exhausts(result.job) {
            run, s' := DeadLetterTurn(s, w, outcome, now, reason);
          } else {
            run, s' := RetryTurn(s, w);
          }
      }
    }
  }
}
