/** The autoscaler of the worker pool (packages/media/scaler.go).  Times and durations are integers
    in one unit; utilization is a real number. */
module Scaler {
  import opened Options

  datatype Config = Config(
    minWorkers: int, maxWorkers: int,
    scaleUpQueueDepth: int, scaleDownQueueDepth: int,
    scaleUpBusyPct: real, scaleDownBusyPct: real,
    cooldownUp: int, cooldownDown: int)

  function Max(a: int, b: int): int { if a > b then a else b }

  function Min(a: int, b: int): int { if a < b then a else b }

  ghost function Total(samples: seq<real>): real {
    if samples == [] then 0.0 else Total(samples[..|samples| - 1]) + samples[|samples| - 1]
  }

  /** The last ten samples, or all of them if there are fewer. */
  ghost function Window(samples: seq<real>): (window: seq<real>)
    ensures |window| == Min(10, |samples|)
  {
    samples[|samples| - Min(10, |samples|)..]
  }

  // Successive events are at least `gap` apart.
  ghost predicate Spaced(times: seq<int>, gap: int) {
    forall i :: 0 < i < |times| ==> times[i] - times[i - 1] >= gap
  }

  class ScalingController {
    const config: Config
    var desired: int
    var lastUp: Option<int>     // None: the zero time, further back than any cooldown
    var lastDown: Option<int>
    var busySamples: seq<real>

    ghost var samples: seq<real>  // every sample ever recorded
    ghost var ups: seq<int>       // when the scaler scaled up
    ghost var downs: seq<int>     // when it scaled down

    ghost predicate Valid()
      reads this
    {
      && config.minWorkers <= desired <= Max(config.minWorkers, config.maxWorkers)
      && desired == config.minWorkers + |ups| - |downs|
      && busySamples == Window(samples)
      && lastUp == (if ups == [] then None else Some(ups[|ups| - 1]))
      && lastDown == (if downs == [] then None else Some(downs[|downs| - 1]))
      && Spaced(ups, config.cooldownUp) && Spaced(downs, config.cooldownDown)
    }

    constructor (config: Config)
      ensures Valid() && this.config == config && desired == config.minWorkers
      ensures samples == [] && ups == [] && downs == []
    {
      this.config := config;
      desired, lastUp, lastDown, busySamples := config.minWorkers, None, None, [];
      samples, ups, downs := [], [], [];
    }

    method RecordUtilization(busy: int, total: int)
      requires Valid()
      modifies this`busySamples, this`samples
      ensures Valid()
      ensures samples == if total <= 0 then old(samples) else old(samples) + [busy as real / total as real]
    {
      if total <= 0 {
        return;
      }
      var sample := busy as real / total as real;
      busySamples := busySamples + [sample];
      samples := samples + [sample];
      if |busySamples| > 10 {
        busySamples := busySamples[|busySamples| - 10..];
      }
    }

    /** The mean of the last ten samples ever recorded. */
    ghost function Utilization(): real
      reads this
    {
      if samples == [] then 0.0 else Total(Window(samples)) / |Window(samples)| as real
    }

    // Whether the last scale-up, or scale-down, is long enough ago.
    ghost predicate Cooled(last: Option<int>, now: int, cooldown: int) {
      last.None? || now - last.value >= cooldown
    }

    method AvgUtilization() returns (average: real)
      requires Valid()
      ensures average == Utilization()
    {
      if |busySamples| == 0 {
        return 0.0;
      }
      var sum := 0.0;
      for i := 0 to |busySamples|
        invariant sum == Total(busySamples[..i])
      {
        assert busySamples[..i + 1][..i] == busySamples[..i];
        sum := sum + busySamples[i];
      }
      assert busySamples[..|busySamples|] == busySamples;
      average := sum / |busySamples| as real;
    }

    /** One evaluation moves desired by at most one, towards the load, and never out of its bounds;
        it does nothing when the queue metrics cannot be read. */
    method Evaluate(queueDepth: Option<int>, now: int)
      requires Valid()
      modifies this`desired, this`lastUp, this`lastDown, this`ups, this`downs
      ensures Valid()
      ensures (ups == old(ups) && downs == old(downs) && desired == old(desired))
           || (ups == old(ups) + [now] && downs == old(downs) && desired == old(desired) + 1)
           || (ups == old(ups) && downs == old(downs) + [now] && desired == old(desired) - 1)
      ensures ups != old(ups) <==>
                && queueDepth.Some? && old(desired) < config.maxWorkers && Cooled(old(lastUp), now, config.cooldownUp)
                && (queueDepth.value > config.scaleUpQueueDepth || old(Utilization()) > config.scaleUpBusyPct)
      ensures downs != old(downs) <==>
                && ups == old(ups)
                && queueDepth.Some? && old(desired) > config.minWorkers && Cooled(old(lastDown), now, config.cooldownDown)
                && queueDepth.value < config.scaleDownQueueDepth && old(Utilization()) < config.scaleDownBusyPct
    {
      if queueDepth.None? {
        return;
      }
      var depth := queueDepth.value;
      var utilization := AvgUtilization();
      var current := desired;

      if current < config.maxWorkers && (lastUp.None? || now - lastUp.value >= config.cooldownUp) {
        if depth > config.scaleUpQueueDepth || utilization > config.scaleUpBusyPct {
          desired := Min(current + 1, config.maxWorkers);
          lastUp, ups := Some(now), ups + [now];
          return;
        }
      }

      if current > config.minWorkers && (lastDown.None? || now - lastDown.value >= config.cooldownDown) {
        if depth < config.scaleDownQueueDepth && utilization < config.scaleDownBusyPct {
          desired := Max(current - 1, config.minWorkers);
          lastDown, downs := Some(now), downs + [now];
        }
      }
    }
  }

  // ---------- What the cooldowns guarantee ----------

  lemma {:induction false} SpacedApart(times: seq<int>, gap: int, i: nat, k: nat)
    requires Spaced(times, gap) && i <= k < |times|
    ensures times[k] - times[i] >= gap * (k - i)
    decreases k
  {
    if i < k { SpacedApart(times, gap, i, k - 1); }
  }

  /** The positions of the events in an interval. */
  ghost function Within(times: seq<int>, from: int, to: int): set<nat> {
    set i: nat | i < |times| && from <= times[i] <= to
  }

  lemma {:induction false} RangeSize(s: set<nat>, lo: nat, count: nat)
    requires forall i :: i in s ==> lo <= i < lo + count
    ensures |s| <= count
    decreases count
  {
    if count == 0 {
      assert s == {};
    } else {
      RangeSize(s - {lo + count - 1}, lo, count - 1);
    }
  }

  /** Events that keep a positive cooldown between them happen at most L/cooldown + 1 times in any
      interval of length L, whatever the clock did meanwhile. */
  lemma CooldownBound(times: seq<int>, gap: int, from: int, length: nat)
    requires Spaced(times, gap) && gap > 0
    ensures |Within(times, from, from + length)| <= length / gap + 1
  {
    var inside := Within(times, from, from + length);
    if inside != {} {
      var first := Earliest(inside);
      var count := length / gap + 1;
      forall i | i in inside ensures first <= i < first + count {
        if i >= first + count {
          SpacedApart(times, gap, first, i);
          TooFar(gap, i - first, length);
        }
      }
      RangeSize(inside, first, count);
    }
  }

  lemma TooFar(gap: int, steps: int, length: nat)
    requires gap > 0 && steps >= length / gap + 1
    ensures gap * steps > length
  {
    assert gap * steps >= gap * (length / gap + 1);
  }

  lemma {:induction false} Earliest(s: set<nat>) returns (first: nat)
    requires s != {}
    ensures first in s && forall i :: i in s ==> first <= i
  {
    var candidate :| candidate in s;
    first := candidate;
    if s != {candidate} {
      var rest := Earliest(s - {candidate});
      if rest < candidate { first := rest; }
      forall i | i in s ensures first <= i {
        if i != candidate { assert i in s - {candidate}; }
      }
    }
  }

  /** The scaling events of any controller, after any calls, obey the cooldowns; the number of
      workers it asks for is the minimum plus the ups less the downs. */
  lemma ScalingHistory(c: ScalingController, from: int, length: nat)
    requires c.Valid() && c.config.minWorkers <= c.config.maxWorkers
    ensures c.config.minWorkers <= c.desired == c.config.minWorkers + |c.ups| - |c.downs| <= c.config.maxWorkers
    ensures c.config.cooldownUp > 0 ==> |Within(c.ups, from, from + length)| <= length / c.config.cooldownUp + 1
    ensures c.config.cooldownDown > 0 ==> |Within(c.downs, from, from + length)| <= length / c.config.cooldownDown + 1
    ensures c.busySamples == c.samples[|c.samples| - Min(10, |c.samples|)..]
  {
    if c.config.cooldownUp > 0 { CooldownBound(c.ups, c.config.cooldownUp, from, length); }
    if c.config.cooldownDown > 0 { CooldownBound(c.downs, c.config.cooldownDown, from, length); }
  }
}
