/** The transcoding queue over Redis Streams (packages/media/queue.go).

    A stream entry is never deleted, so the message id of an entry is its position in the
    stream.  The consumer group remembers how many entries it has delivered and which of
    those are still unacknowledged (the pending entries list). */
module JobQueue {

  datatype Job = Job(
    id: string, videoId: string, uploadSessionId: string, rawObjectKey: string,
    ownerId: string, createdAt: int, attempt: int, maxAttempts: int)

  datatype DeadLetterEntry = DeadLetterEntry(job: Job, deadAt: int, reason: string, origMsgId: nat)

  datatype ClaimResult = Nothing | Claim(messageId: nat, job: Job)

  /** What Redis stores for one queue. */
  datatype Broker = Broker(
    stream: seq<Job>, delivered: nat, pending: set<nat>, dlq: seq<DeadLetterEntry>)
  {
    ghost predicate Valid() {
      delivered <= |stream| && forall m :: m in pending ==> m < delivered
    }
  }

  // The Redis commands the queue issues.

  function XAdd(b: Broker, job: Job): Broker {
    b.(stream := b.stream + [job])
  }

  function XReadGroup(b: Broker): Broker
    requires b.delivered < |b.stream|
  {
    b.(delivered := b.delivered + 1, pending := b.pending + {b.delivered})
  }

  function XAck(b: Broker, msg: nat): Broker {
    b.(pending := b.pending - {msg})
  }

  function XAddDeadLetter(b: Broker, entry: DeadLetterEntry): Broker {
    b.(dlq := b.dlq + [entry])
  }

  /** Whether a transiently failed job goes to the dead-letter stream instead of being retried. */
  predicate Exhausts(job: Job) {
    job.maxAttempts > 0 && job.attempt + 1 >= job.maxAttempts
  }

  class Queue {
    var stream: seq<Job>
    var delivered: nat
    var pending: set<nat>
    var dlq: seq<DeadLetterEntry>

    function Redis(): Broker
      reads this
    {
      Broker(stream, delivered, pending, dlq)
    }

    constructor ()
      ensures Redis() == Broker([], 0, {}, [])
    {
      stream, delivered, pending, dlq := [], 0, {}, [];
    }

    method Enqueue(job: Job) returns (msg: nat)
      modifies this
      ensures msg == |old(stream)| && stream == old(stream) + [job]
      ensures Redis() == XAdd(old(Redis()), job)
    {
      msg := |stream|;
      stream := stream + [job];
    }

    method ClaimPending() returns (r: ClaimResult)
      requires Redis().Valid()
      modifies this
      ensures Redis().Valid()
      ensures r.Nothing? <==> old(delivered) == |old(stream)|
      ensures r.Nothing? ==> Redis() == old(Redis())
      ensures r.Claim? ==>
                && r.messageId == old(delivered) && r.job == old(stream)[r.messageId]
                && r.messageId !in old(pending) && r.messageId in pending
                && Redis() == XReadGroup(old(Redis()))
    {
      if delivered == |stream| {
        return Nothing;
      }
      r := Claim(delivered, stream[delivered]);
      pending := pending + {delivered};
      delivered := delivered + 1;
    }

    method Ack(msg: nat)
      modifies this
      ensures Redis() == XAck(old(Redis()), msg)
    {
      pending := pending - {msg};
    }

    /** Both commands of the pipeline, in the order in which they are sent. */
    method MoveToDeadLetter(msg: nat, job: Job, reason: string, now: int)
      modifies this
      ensures dlq == old(dlq) + [DeadLetterEntry(job, now, reason, msg)]
      ensures pending == old(pending) - {msg}
      ensures stream == old(stream) && delivered == old(delivered)
    {
      dlq := dlq + [DeadLetterEntry(job, now, reason, msg)];
      Ack(msg);
    }

    /** The message leaves the pending list in either case; the job reappears once, with one
        more attempt on it, in the stream or in the dead-letter stream but not in both. */
    method NackWithAttempt(msg: nat, job: Job, reason: string, now: int) returns (updated: Job)
      modifies this
      ensures updated == job.(attempt := job.attempt + 1)
      ensures pending == old(pending) - {msg} && delivered == old(delivered)
      ensures if Exhausts(job)
              then stream == old(stream) && dlq == old(dlq) + [DeadLetterEntry(updated, now, reason, msg)]
              else stream == old(stream) + [updated] && dlq == old(dlq)
    {
      updated := job.(attempt := job.attempt + 1);
      if updated.maxAttempts > 0 && updated.attempt >= updated.maxAttempts {
        MoveToDeadLetter(msg, updated, reason, now);
        return;
      }
      Ack(msg);
      var _ := Enqueue(updated);
    }
  }
}
