/** What moderation leaves visible, for how long, and what trail it leaves, over every sequence of
    operations (services/api/internal/moderation/service.go). */
module ModerationEffects {
  import opened Options
  import opened Moderation

  // ---------- What the public sees ----------

  predicate Shown(t: Target) {
    match t
    case Video(visibility, _, deletedAt) => visibility == Public && deletedAt.None?
    case Comment(status, deletedAt) => status == Visible && deletedAt.None?
    case User(standing, _) => standing == Active
    case Other => true
  }

  /** The actions that take something away that is shown: three for a video, two for a comment, two for
      a user who has not been deleted. */
  lemma HidesIff(a: ActionType, t: Target, now: int)
    requires Shown(t)
    ensures Shown(Apply(a, t, now)) <==>
              match t
              case Video(_, _, _) => a !in {HideContent, UnpublishVideo, DeleteVideo}
              case Comment(_, _) => a !in {HideContent, RemoveComment}
              case User(_, deletedAt) => deletedAt.Some? || a !in {SuspendUser, BanUser}
              case Other => true
  {
  }

  // No restore reaches the target, on its own or by a reversal, and nothing else rewrites it.
  predicate Unrestored(s: Store, run: seq<Operation>, target: string)
    decreases |run|
  {
    run == [] ||
    (&& (match run[0]
         case Execute(o, _) => o.target == target ==> o.action != RestoreContent
         case Reverse(id, _) =>
           ReverseResult(s, id) == Ok && s.actions[id].order.target == target ==>
             s.actions[id].order.action !in {HideContent, DeleteVideo, RemoveComment}
         case Outside(other, _) => other != target)
     && Unrestored(Step(s, run[0]), run[1..], target))
  }

  /** What is hidden stays hidden until it is restored, whatever else is done to it. */
  lemma {:induction false} StaysHidden(s: Store, run: seq<Operation>, target: string)
    requires target in s.targets && !Shown(s.targets[target]) && Unrestored(s, run, target)
    ensures target in Run(s, run).targets && !Shown(Run(s, run).targets[target])
    decreases |run|
  {
    if run != [] { StaysHidden(Step(s, run[0]), run[1..], target); }
  }

  predicate Deleted(t: Target) {
    (t.Video? || t.Comment?) && t.deletedAt.Some?
  }

  /** A deleted video or comment does not change at all until it is restored. */
  lemma {:induction false} DeletedIsFrozen(s: Store, run: seq<Operation>, target: string)
    requires target in s.targets && Deleted(s.targets[target]) && Unrestored(s, run, target)
    ensures target in Run(s, run).targets && Run(s, run).targets[target] == s.targets[target]
    decreases |run|
  {
    if run != [] { DeletedIsFrozen(Step(s, run[0]), run[1..], target); }
  }

  /** So the row of a deleted video says when it was deleted, that it was taken down and when it had been
      published, and the row of a removed comment when that was, for as long as nobody restores it. */
  lemma DeletionStands(s: Store, o: Order, now: int, run: seq<Operation>)
    requires o.target in s.targets && Unrestored(Step(s, Execute(o, now)), run, o.target)
    ensures var t := s.targets[o.target];
            var s' := Run(Step(s, Execute(o, now)), run);
            && o.target in s'.targets
            && (o.action == DeleteVideo && t.Video? && t.deletedAt.None? ==>
                  s'.targets[o.target] == Video(TakenDown, t.publishedAt, Some(now)))
            && (o.action == RemoveComment && t.Comment? && t.deletedAt.None? ==>
                  s'.targets[o.target] == Comment(t.status, Some(now)))
  {
    var done := Step(s, Execute(o, now));
    StaysThere(done, run, o.target);
    if Deleted(done.targets[o.target]) { DeletedIsFrozen(done, run, o.target); }
  }

  lemma {:induction false} StaysThere(s: Store, run: seq<Operation>, target: string)
    requires target in s.targets
    ensures target in Run(s, run).targets
    decreases |run|
  {
    if run != [] { StaysThere(Step(s, run[0]), run[1..], target); }
  }

  predicate LeftAlone(run: seq<Operation>, target: string) {
    forall op :: op in run && op.Outside? ==> op.target != target
  }

  /** Moderation never deletes a user and never brings a deleted one back: it changes a user's standing
      only, and that of a deleted user to active at most. */
  lemma {:induction false} UsersKeepDeletion(s: Store, run: seq<Operation>, target: string)
    requires target in s.targets && s.targets[target].User? && LeftAlone(run, target)
    ensures var t, s' := s.targets[target], Run(s, run);
            && target in s'.targets && s'.targets[target].User? && s'.targets[target].deletedAt == t.deletedAt
            && (t.deletedAt.Some? ==> s'.targets[target].standing in {t.standing, Active})
    decreases |run|
  {
    if run != [] {
      assert run[0] in run;
      assert forall op :: op in run[1..] ==> op in run;
      UsersKeepDeletion(Step(s, run[0]), run[1..], target);
    }
  }

  /** Restoring shows again what was deleted and users who were suspended or banned, and nothing else. */
  lemma RestoresIff(t: Target, now: int)
    requires !Shown(t)
    ensures Shown(Apply(RestoreContent, t, now)) <==> Deleted(t) || t.User?
  {
  }

  /** Hiding cannot be reversed: content that was shown and is hidden stays hidden when the hiding is
      reversed, although the reversal succeeds. */
  lemma HidingIsNotReversed(s: Store, o: Order, now: int, between: seq<Operation>, r: Reversal)
    requires o.action == HideContent && o.target in s.targets
    requires Shown(s.targets[o.target]) && (s.targets[o.target].Video? || s.targets[o.target].Comment?)
    requires Spares(Step(s, Execute(o, now)), between, o.target)
    ensures var done := Run(Step(s, Execute(o, now)), between);
            var s' := Step(done, Reverse(|s.actions|, r));
            && ReverseResult(done, |s.actions|) == Ok
            && o.target in s'.targets && !Shown(s'.targets[o.target])
  {
    SparedRun(Step(s, Execute(o, now)), between, o.target, |s.actions|);
  }

  /** What a reversal is answered, after any operations: success for an action that was executed and not
      yet reversed, and the two refusals for the others. */
  lemma ReversalAnswers(targets: map<string, Target>, run: seq<Operation>, id: nat)
    ensures var s := Run(Store(targets, [], [], []), run);
            && (ReverseResult(s, id) == NotFound <==> id >= |s.actions|)
            && (ReverseResult(s, id) == AlreadyReversed <==> id in s.reversals)
            && (ReverseResult(s, id) == Ok <==> id < |s.actions| && id !in s.reversals)
  {
    InvRun(Store(targets, [], [], []), run);
  }

  // ---------- The trail ----------

  function Entries(log: seq<AuditEntry>, reversing: bool): seq<AuditEntry> {
    if log == [] then []
    else
      var last := log[|log| - 1];
      Entries(log[..|log| - 1], reversing) + if last.reversing == reversing then [last] else []
  }

  lemma EntriesOneMore(log: seq<AuditEntry>, entry: AuditEntry, reversing: bool)
    ensures Entries(log + [entry], reversing) == Entries(log, reversing) + if entry.reversing == reversing then [entry] else []
  {
    assert (log + [entry])[..|log|] == log;
  }

  // The k-th entry about an executed action says who did what to which target and why.
  ghost predicate ExecutedAs(entries: seq<AuditEntry>, actions: seq<Row>, k: nat)
    requires k < |entries| == |actions|
  {
    var o := actions[k].order;
    entries[k].actor == o.actor && entries[k].action == o.action && entries[k].target == o.target && entries[k].reason == o.reason
  }

  // The k-th entry about a reversal says who reversed which action, on what, and why.
  ghost predicate ReversedAs(entries: seq<AuditEntry>, actions: seq<Row>, reversals: seq<nat>, k: nat)
    requires k < |entries| == |reversals|
  {
    && reversals[k] < |actions|
    && var row := actions[reversals[k]];
    && row.reversal.Some?
    && entries[k].actor == row.reversal.value.actor && entries[k].reason == Some(row.reversal.value.reason)
    && entries[k].action == row.order.action && entries[k].target == row.order.target
  }

  ghost predicate Trail(s: Store) {
    var executed, reversed := Entries(s.auditLog, false), Entries(s.auditLog, true);
    && |executed| == |s.actions| && |reversed| == |s.reversals|
    && (forall k :: 0 <= k < |executed| ==> ExecutedAs(executed, s.actions, k))
    && (forall k :: 0 <= k < |reversed| ==> ReversedAs(reversed, s.actions, s.reversals, k))
  }

  lemma TrailExecute(s: Store, o: Order, now: int)
    requires Trail(s)
    ensures Trail(Step(s, Execute(o, now)))
  {
    var s' := Step(s, Execute(o, now));
    EntriesOneMore(s.auditLog, Executed(o), false);
    EntriesOneMore(s.auditLog, Executed(o), true);
    var executed, reversed := Entries(s.auditLog, false), Entries(s.auditLog, true);
    assert Entries(s'.auditLog, true) == reversed;
    forall k | 0 <= k <= |executed| ensures ExecutedAs(executed + [Executed(o)], s'.actions, k) {
      if k < |executed| { assert ExecutedAs(executed, s.actions, k); }
    }
    forall k | 0 <= k < |reversed| ensures ReversedAs(reversed, s'.actions, s'.reversals, k) {
      assert ReversedAs(reversed, s.actions, s.reversals, k);
    }
  }

  lemma TrailReverse(s: Store, id: nat, r: Reversal)
    requires Trail(s) && Inv(s) && ReverseResult(s, id) == Ok
    ensures Trail(Step(s, Reverse(id, r)))
  {
    var s' := Step(s, Reverse(id, r));
    var entry := Reversed(s.actions[id].order, r);
    EntriesOneMore(s.auditLog, entry, false);
    EntriesOneMore(s.auditLog, entry, true);
    var executed, reversed := Entries(s.auditLog, false), Entries(s.auditLog, true);
    assert Entries(s'.auditLog, false) == executed;
    forall k | 0 <= k < |executed| ensures ExecutedAs(executed, s'.actions, k) {
      assert ExecutedAs(executed, s.actions, k);
    }
    forall k | 0 <= k <= |reversed| ensures ReversedAs(reversed + [entry], s'.actions, s'.reversals, k) {
      if k < |reversed| {
        assert ReversedAs(reversed, s.actions, s.reversals, k);
        assert s.reversals[k] != id;
      }
    }
  }

  /** Over any operations the audit log accounts for every action and every successful reversal, once, in
      order, with the right actor, action, target and reason; nothing else is in it. */
  lemma {:induction false} AuditTrail(s: Store, run: seq<Operation>)
    requires Trail(s) && Inv(s)
    ensures Trail(Run(s, run))
    decreases |run|
  {
    if run != [] {
      match run[0] {
        case Execute(o, now) => TrailExecute(s, o, now);
        case Reverse(id, r) => if ReverseResult(s, id) == Ok { TrailReverse(s, id, r); }
        case Outside(_, _) =>
      }
      InvStep(s, run[0]);
      AuditTrail(Step(s, run[0]), run[1..]);
    }
  }

  /** In particular from empty tables. */
  lemma AuditTrailFromStart(targets: map<string, Target>, run: seq<Operation>)
    ensures Trail(Run(Store(targets, [], [], []), run))
  {
    AuditTrail(Store(targets, [], [], []), run);
  }
}
