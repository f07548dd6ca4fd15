/** The dispatcher loop and the drain of Run (services/worker/internal/processor/processor.go):
    a semaphore channel of capacity maxConc, the goroutines that hold its slots, and the context
    that may be cancelled at any moment.  Goroutines are alike, so they are counted by where
    they stand. */
module WorkerPool {

  datatype Dispatcher =
    | Top                     // at the select
    | Read(desired: int)      // desired has just been read
    | Sending(desired: int)   // len(sem) < desired was seen, about to send
    | Spawning                // the slot is taken, the goroutine not yet started
    | Draining(taken: nat)
    | Stopped

  datatype Pool = Pool(
    maxConc: nat, occupancy: nat, dispatcher: Dispatcher, cancelled: bool,
    launched: nat,       // started, before activeWorkers.Add(1)
    active: nat,         // in processNext
    releasing: nat,      // after activeWorkers.Add(-1), before the slot is given back
    activeWorkers: int,
    peak: int)           // the largest desired value read so far; no step looks at it

  datatype Action =
    | Cancel
    | ReadDesired(desired: int)
    | Wait
    | Pass
    | Send
    | Spawn
    | BeginDrain
    | DrainSend
    | Return
    | Activate
    | Deactivate
    | Release

  function Initial(maxConc: nat): Pool {
    Pool(maxConc, 0, Top, false, 0, 0, 0, 0, 0)
  }

  predicate Enabled(p: Pool, a: Action) {
    match a
    case Cancel => true
    case ReadDesired(_) => p.dispatcher == Top && !p.cancelled  // the select saw no cancellation
    case Wait => p.dispatcher.Read? && p.occupancy >= p.dispatcher.desired
    case Pass => p.dispatcher.Read? && p.occupancy < p.dispatcher.desired
    case Send => p.dispatcher.Sending? && p.occupancy < p.maxConc
    case Spawn => p.dispatcher == Spawning
    case BeginDrain => p.dispatcher == Top && p.cancelled
    case DrainSend => p.dispatcher.Draining? && p.dispatcher.taken < p.maxConc && p.occupancy < p.maxConc
    case Return => p.dispatcher.Draining? && p.dispatcher.taken == p.maxConc
    case Activate => p.launched > 0
    case Deactivate => p.active > 0
    case Release => p.releasing > 0 && p.occupancy > 0
  }

  function Step(p: Pool, a: Action): Pool
    requires Enabled(p, a)
  {
    match a
    case Cancel => p.(cancelled := true)
    case ReadDesired(desired) => p.(dispatcher := Read(desired), peak := if desired > p.peak then desired else p.peak)
    case Wait => p.(dispatcher := Top)
    case Pass => p.(dispatcher := Sending(p.dispatcher.desired))
    case Send => p.(dispatcher := Spawning, occupancy := p.occupancy + 1)
    case Spawn => p.(dispatcher := Top, launched := p.launched + 1)
    case BeginDrain => p.(dispatcher := Draining(0))
    case DrainSend => p.(dispatcher := Draining(p.dispatcher.taken + 1), occupancy := p.occupancy + 1)
    case Return => p.(dispatcher := Stopped)
    case Activate => p.(launched := p.launched - 1, active := p.active + 1, activeWorkers := p.activeWorkers + 1)
    case Deactivate => p.(active := p.active - 1, releasing := p.releasing + 1, activeWorkers := p.activeWorkers - 1)
    case Release => p.(releasing := p.releasing - 1, occupancy := p.occupancy - 1)
  }

  ghost predicate Runs(p: Pool, run: seq<Action>, p': Pool)
    decreases |run|
  {
    if run == [] then p == p'
    else Enabled(p, run[0]) && Runs(Step(p, run[0]), run[1..], p')
  }

  function Live(p: Pool): nat { p.launched + p.active + p.releasing }

  function Permits(p: Pool): nat {
    match p.dispatcher
    case Spawning => 1
    case Draining(taken) => taken
    case Stopped => p.maxConc
    case _ => 0
  }

  ghost predicate Inv(p: Pool) {
    && p.occupancy == Live(p) + Permits(p) <= p.maxConc
    && p.activeWorkers == p.active
    && (p.dispatcher.Draining? ==> p.dispatcher.taken <= p.maxConc)
    && (p.dispatcher.Sending? ==> p.occupancy < p.dispatcher.desired <= p.peak)
    && (p.dispatcher.Read? ==> p.dispatcher.desired <= p.peak)
    && Live(p) + (if p.dispatcher == Spawning then 1 else 0) <= p.peak
  }

  lemma InvStep(p: Pool, a: Action)
    requires Inv(p) && Enabled(p, a)
    ensures Inv(Step(p, a)) && Step(p, a).maxConc == p.maxConc
  {
  }

  /** In every reachable state the occupied slots are the live workers and the permits that the
      dispatcher holds, and there are never more of them than slots; activeWorkers counts the workers
      inside processNext. */
  lemma {:induction false} PermitsAccounted(p: Pool, run: seq<Action>, p': Pool)
    requires Inv(p) && Runs(p, run, p')
    ensures Inv(p') && p'.maxConc == p.maxConc
    ensures p'.occupancy == Live(p') + Permits(p') <= p'.maxConc && 0 <= p'.activeWorkers <= Live(p')
    decreases |run|
  {
    if run != [] {
      InvStep(p, run[0]);
      PermitsAccounted(Step(p, run[0]), run[1..], p');
    }
  }

  /** A worker starts only below the desired value just read, although other workers ran in between,
      and the pool never holds more workers than the largest desired value read.  The send blocks
      only if that value exceeds the capacity. */
  lemma StartsBelowDesired(maxConc: nat, run: seq<Action>, p: Pool)
    requires Runs(Initial(maxConc), run, p)
    ensures Enabled(p, Send) ==> p.occupancy < p.dispatcher.desired && Live(p) < p.dispatcher.desired
    ensures p.dispatcher.Sending? ==> (Enabled(p, Send) <==> p.occupancy != maxConc)
    ensures p.dispatcher.Sending? && p.dispatcher.desired <= maxConc ==> Enabled(p, Send)
    ensures Live(p) <= p.peak
  {
    PermitsAccounted(Initial(maxConc), run, p);
  }

  /** When Run returns, no worker is left, and none will ever start. */
  lemma DrainedMeansNoWorker(maxConc: nat, run: seq<Action>, p: Pool, later: seq<Action>, p': Pool)
    requires Runs(Initial(maxConc), run, p) && p.dispatcher == Stopped && Runs(p, later, p')
    ensures Live(p) == 0 && p.activeWorkers == 0
    ensures p'.dispatcher == Stopped && Live(p') == 0
  {
    PermitsAccounted(Initial(maxConc), run, p);
    StoppedForever(p, later, p');
  }

  lemma {:induction false} StoppedForever(p: Pool, run: seq<Action>, p': Pool)
    requires Inv(p) && p.dispatcher == Stopped && Runs(p, run, p')
    ensures p'.dispatcher == Stopped && Live(p') == 0
    decreases |run|
  {
    if run != [] { InvStep(p, run[0]); StoppedForever(Step(p, run[0]), run[1..], p'); }
  }

  /** The pool drains only once the context has been cancelled, and it has stopped only after a drain. */
  lemma {:induction false} DrainsOnlyWhenCancelled(p: Pool, run: seq<Action>, p': Pool)
    requires (p.dispatcher.Draining? || p.dispatcher == Stopped ==> p.cancelled) && Runs(p, run, p')
    ensures p'.dispatcher.Draining? || p'.dispatcher == Stopped ==> p'.cancelled
    ensures p.cancelled ==> p'.cancelled
    decreases |run|
  {
    if run != [] { DrainsOnlyWhenCancelled(Step(p, run[0]), run[1..], p'); }
  }

  /** From the top of the loop, reading a desired value leads to a new worker exactly if fewer slots than
      that are occupied, and back to the top with nothing changed otherwise; no other step is needed. */
  lemma DispatchTurn(maxConc: nat, before: seq<Action>, p: Pool, desired: int) returns (turn: seq<Action>, p': Pool)
    requires Runs(Initial(maxConc), before, p) && p.dispatcher == Top && !p.cancelled && desired <= maxConc
    ensures Runs(p, turn, p') && p'.dispatcher == Top
    ensures p.occupancy < desired ==> Live(p') == Live(p) + 1 && p'.occupancy == p.occupancy + 1
    ensures p.occupancy >= desired ==> Live(p') == Live(p) && p'.occupancy == p.occupancy
    ensures var once := Step(p, ReadDesired(desired));
            && (Enabled(once, Pass) <==> p.occupancy < desired)
            && (Enabled(once, Wait) <==> p.occupancy >= desired)
  {
    PermitsAccounted(Initial(maxConc), before, p);
    var once := Step(p, ReadDesired(desired));
    if p.occupancy < desired {
      var twice := Step(once, Pass);
      var sent := Step(twice, Send);
      turn, p' := [ReadDesired(desired), Pass, Send, Spawn], Step(sent, Spawn);
      assert turn[1..] == [Pass, Send, Spawn] && turn[1..][1..] == [Send, Spawn];
      assert [Send, Spawn][1..] == [Spawn] && [Spawn][1..] == [];
      assert Runs(sent, [Spawn], p') && Runs(twice, [Send, Spawn], p') && Runs(once, [Pass, Send, Spawn], p');
    } else {
      turn, p' := [ReadDesired(desired), Wait], Step(once, Wait);
      assert turn[1..] == [Wait] && [Wait][1..] == [];
      assert Runs(once, [Wait], p');
    }
  }

  /** What is left of a drain: the slots to take, and up to three steps for each live worker. */
  function DrainWork(p: Pool): nat {
    3 * p.launched + 2 * p.active + p.releasing +
    match p.dispatcher
    case Draining(taken) => if taken <= p.maxConc then p.maxConc - taken + 1 else 0
    case _ => 0
  }

  /** A drain cannot get stuck, and it ends: some step other than a cancellation is always possible
      and each of them brings the end closer. */
  lemma DrainProgress(p: Pool)
    requires Inv(p) && p.dispatcher.Draining?
    ensures exists a :: a != Cancel && Enabled(p, a)
    ensures forall a :: Enabled(p, a) && a != Cancel ==>
              && (Step(p, a).dispatcher.Draining? || Step(p, a).dispatcher.Stopped?)
              && DrainWork(Step(p, a)) < DrainWork(p)
  {
    if p.dispatcher.taken == p.maxConc {
      assert Enabled(p, Return);
    } else if p.occupancy < p.maxConc {
      assert Enabled(p, DrainSend);
    } else if p.launched > 0 {
      assert Enabled(p, Activate);
    } else if p.active > 0 {
      assert Enabled(p, Deactivate);
    } else {
      assert Enabled(p, Release);
    }
  }

  lemma {:induction false} DrainEnds(p: Pool, run: seq<Action>, p': Pool)
    requires Inv(p) && p.dispatcher.Draining? && Runs(p, run, p') && Cancel !in run
    ensures |run| <= DrainWork(p)
    ensures |run| == DrainWork(p) ==> p'.dispatcher == Stopped && Live(p') == 0
    decreases |run|
  {
    if run == [] {
    } else if run[0] == Return {
    } else {
      DrainProgress(p);
      InvStep(p, run[0]);
      DrainEnds(Step(p, run[0]), run[1..], p');
    }
  }

  // ---------- Shutting down ----------

  /** How many workers the run starts. */
  function Starts(run: seq<Action>): nat {
    if run == [] then 0 else (if run[0] == Spawn then 1 else 0) + Starts(run[1..])
  }

  /** After a cancellation at most one more worker starts: the one whose desired value had already been
      read. */
  lemma {:induction false} AtMostOneStart(p: Pool, run: seq<Action>, p': Pool)
    requires p.cancelled && Runs(p, run, p')
    ensures Starts(run) <= if p.dispatcher.Read? || p.dispatcher.Sending? || p.dispatcher == Spawning then 1 else 0
    decreases |run|
  {
    if run != [] { AtMostOneStart(Step(p, run[0]), run[1..], p'); }
  }

  /** What is left to do once the pool has been cancelled: the rest of the loop, a drain, and up to three
      steps for each worker. */
  function StopWork(p: Pool): nat {
    3 * p.launched + 2 * p.active + p.releasing +
    match p.dispatcher
    case Read(_) => p.maxConc + 8
    case Sending(_) => p.maxConc + 7
    case Spawning => p.maxConc + 6
    case Top => p.maxConc + 2
    case Draining(taken) => if taken <= p.maxConc then p.maxConc - taken + 1 else 0
    case Stopped => 0
  }

  lemma SomeStepLeft(p: Pool)
    requires Inv(p) && p.cancelled && p.maxConc > 0 && p.dispatcher != Stopped
    ensures exists a :: a != Cancel && Enabled(p, a)
  {
    match p.dispatcher
    case Top => assert Enabled(p, BeginDrain);
    case Read(desired) => assert Enabled(p, if p.occupancy >= desired then Wait else Pass);
    case Sending(_) =>
      if p.occupancy < p.maxConc { assert Enabled(p, Send); } else { SomeWorkerMoves(p); }
    case Spawning => assert Enabled(p, Spawn);
    case Draining(_) => DrainProgress(p);
  }

  lemma StepsLeft(p: Pool, a: Action)
    requires Inv(p) && p.cancelled && Enabled(p, a) && a != Cancel
    ensures Step(p, a).cancelled && StopWork(Step(p, a)) < StopWork(p)
  {
  }

  /** A cancelled pool with room for a worker is never stuck before it has stopped, and every step but a
      further cancellation brings the end closer. */
  lemma StopProgress(p: Pool)
    requires Inv(p) && p.cancelled && p.maxConc > 0
    ensures p.dispatcher != Stopped ==> exists a :: a != Cancel && Enabled(p, a)
    ensures forall a :: Enabled(p, a) && a != Cancel ==> Step(p, a).cancelled && StopWork(Step(p, a)) < StopWork(p)
  {
    if p.dispatcher != Stopped { SomeStepLeft(p); }
    forall a | Enabled(p, a) && a != Cancel ensures Step(p, a).cancelled && StopWork(Step(p, a)) < StopWork(p) { StepsLeft(p, a); }
  }

  lemma SomeWorkerMoves(p: Pool)
    requires Inv(p) && Live(p) > 0
    ensures exists a :: a != Cancel && Enabled(p, a)
  {
    if p.launched > 0 {
      assert Enabled(p, Activate);
    } else if p.active > 0 {
      assert Enabled(p, Deactivate);
    } else {
      assert Enabled(p, Release);
    }
  }

  /** So however the goroutines are scheduled, a cancelled pool takes at most that many steps, and one that
      can take no more has stopped with no worker left. */
  lemma {:induction false} CancelStops(p: Pool, run: seq<Action>, p': Pool)
    requires Inv(p) && p.cancelled && p.maxConc > 0 && Runs(p, run, p') && Cancel !in run
    ensures |run| <= StopWork(p)
    ensures (forall a :: Enabled(p', a) ==> a == Cancel) ==> p'.dispatcher == Stopped && Live(p') == 0 && p'.activeWorkers == 0
    decreases |run|
  {
    StopProgress(p);
    if run != [] {
      InvStep(p, run[0]);
      CancelStops(Step(p, run[0]), run[1..], p');
    }
  }

  /** The room is needed: a pool without slots that reads a positive desired value waits to send for ever,
      cancelled or not. */
  lemma NoSlotsGetStuck(desired: int) returns (run: seq<Action>, p: Pool)
    requires desired > 0
    ensures Runs(Initial(0), run, p) && p.cancelled && p.dispatcher != Stopped
    ensures forall a :: Enabled(p, a) ==> a == Cancel
  {
    var once := Step(Initial(0), ReadDesired(desired));
    var twice := Step(once, Pass);
    run, p := [ReadDesired(desired), Pass, Cancel], Step(twice, Cancel);
    assert run[1..] == [Pass, Cancel] && [Pass, Cancel][1..] == [Cancel] && [Cancel][1..] == [];
    assert Runs(twice, [Cancel], p) && Runs(once, [Pass, Cancel], p);
  }
}
