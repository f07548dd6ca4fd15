/** Moderation actions and their reversal (ExecuteAction, ReverseAction and applyActionToTarget in
    services/api/internal/moderation/service.go, ReverseAction in
    services/api/internal/moderation/repository.go). */
module Moderation {
  import opened Options

  datatype Visibility = Public | Unlisted | Private | TakenDown

  datatype CommentStatus = Visible | Hidden | Deleted

  datatype UserStatus = Active | Suspended | Banned

  // What an action can change about its target; any other target type is left alone.
  datatype Target =
    | Video(visibility: Visibility, publishedAt: Option<int>, deletedAt: Option<int>)
    | Comment(status: CommentStatus, deletedAt: Option<int>)
    | User(standing: UserStatus, deletedAt: Option<int>)
    | Other

  datatype ActionType =
    | HideContent
    | UnpublishVideo
    | DeleteVideo
    | RemoveComment
    | TerminateStream
    | LockChat
    | SuspendUser
    | BanUser
    | RestoreContent

  /** applyActionToTarget: guarded updates, by action and by type of target. */
  function Apply(a: ActionType, t: Target, now: int): Target {
    match (a, t)
    case (HideContent, Video(_, publishedAt, None)) => Video(Private, publishedAt, None)
    case (HideContent, Comment(_, None)) => Comment(Hidden, None)
    case (UnpublishVideo, Video(_, _, None)) => Video(Unlisted, None, None)
    case (DeleteVideo, Video(_, publishedAt, None)) => Video(TakenDown, publishedAt, Some(now))
    case (RemoveComment, Comment(status, None)) => Comment(status, Some(now))
    case (SuspendUser, User(_, None)) => User(Suspended, None)
    case (BanUser, User(_, None)) => User(Banned, None)
    case (RestoreContent, Video(_, publishedAt, Some(_))) => Video(Public, publishedAt, None)
    case (RestoreContent, Comment(_, Some(_))) => Comment(Visible, None)
    case (RestoreContent, User(standing, deletedAt)) => if standing == Active then t else User(Active, deletedAt)
    case _ => t
  }

  // The actions that ReverseAction follows by a restore.
  predicate Restores(a: ActionType) {
    a == HideContent || a == DeleteVideo || a == RemoveComment
  }

  // ---------- The tables ----------

  /** Who asked for an action, on account of which report if any, on what and why. */
  datatype Order = Order(actor: string, report: Option<string>, action: ActionType, target: string, reason: Option<string>)

  datatype Reversal = Reversal(actor: string, at: int, reason: string)

  /** A row of moderation_actions. */
  datatype Row = Row(order: Order, reversal: Option<Reversal>)

  datatype AuditEntry = AuditEntry(actor: string, reversing: bool, action: ActionType, target: string, reason: Option<string>)

  /** `reversals` lists the actions whose reversal succeeded; no operation looks at it. */
  datatype Store = Store(targets: map<string, Target>, actions: seq<Row>, auditLog: seq<AuditEntry>, reversals: seq<nat>)

  datatype Outcome = Ok | NotFound | AlreadyReversed

  datatype Operation =
    | Execute(order: Order, now: int)
    | Reverse(id: nat, reversal: Reversal)
    | Outside(target: string, row: Target)  // anything else that changes or creates a target

  function Applied(targets: map<string, Target>, a: ActionType, target: string, now: int): map<string, Target> {
    if target in targets then targets[target := Apply(a, targets[target], now)] else targets
  }

  function ReverseResult(s: Store, id: nat): Outcome {
    if id >= |s.actions| then NotFound
    else if s.actions[id].reversal.Some? then AlreadyReversed
    else Ok
  }

  function Executed(o: Order): AuditEntry {
    AuditEntry(o.actor, false, o.action, o.target, o.reason)
  }

  function Reversed(o: Order, r: Reversal): AuditEntry {
    AuditEntry(r.actor, true, o.action, o.target, Some(r.reason))
  }

  function Step(s: Store, op: Operation): Store {
    match op
    case Execute(o, now) =>
      s.(targets := Applied(s.targets, o.action, o.target, now), actions := s.actions + [Row(o, None)],
         auditLog := s.auditLog + [Executed(o)])
    case Reverse(id, r) =>
      if ReverseResult(s, id) != Ok then s
      else
        var row := s.actions[id];
        Store(if Restores(row.order.action) then Applied(s.targets, RestoreContent, row.order.target, r.at) else s.targets,
              s.actions[id := row.(reversal := Some(r))], s.auditLog + [Reversed(row.order, r)], s.reversals + [id])
    case Outside(target, row) => s.(targets := s.targets[target := row])
  }

  function Run(s: Store, run: seq<Operation>): Store
    decreases |run|
  {
    if run == [] then s else Run(Step(s, run[0]), run[1..])
  }

  // ---------- What a reversal undoes ----------

  /** When executing an action and then reversing it restores the target, read off the target as it
      was before the action. */
  predicate UndoneExactly(a: ActionType, t: Target) {
    match t
    case Video(visibility, publishedAt, deletedAt) =>
      (match a
       case HideContent => deletedAt.None? && visibility == Private
       case UnpublishVideo => deletedAt.Some? || (visibility == Unlisted && publishedAt.None?)
       case DeleteVideo => deletedAt.None? && visibility == Public
       case RemoveComment => deletedAt.None?
       case RestoreContent => deletedAt.None?
       case _ => true)
    case Comment(status, deletedAt) =>
      (match a
       case HideContent => deletedAt.None? && status == Hidden
       case RemoveComment => deletedAt.None? && status == Visible
       case DeleteVideo => deletedAt.None?
       case RestoreContent => deletedAt.None?
       case _ => true)
    case User(standing, deletedAt) =>
      (match a
       case SuspendUser => deletedAt.Some? || standing == Suspended
       case BanUser => deletedAt.Some? || standing == Banned
       case HideContent => standing == Active
       case DeleteVideo => standing == Active
       case RemoveComment => standing == Active
       case RestoreContent => standing == Active
       case _ => true)
    case Other => true
  }

  /** Executing an action and reversing it leaves the target as it was in exactly the cases listed,
      and never touches any other target. */
  lemma ReverseAfterExecute(s: Store, o: Order, now: int, r: Reversal)
    ensures var s' := Run(s, [Execute(o, now), Reverse(|s.actions|, r)]);
            && (s'.targets == s.targets <==> o.target !in s.targets || UndoneExactly(o.action, s.targets[o.target]))
            && s'.actions == s.actions + [Row(o, Some(r))]
            && s'.auditLog == s.auditLog + [Executed(o), Reversed(o, r)]
            && s'.targets.Keys == s.targets.Keys
            && forall k :: k in s.targets && k != o.target ==> s'.targets[k] == s.targets[k]
  {
    var undone := Step(Step(s, Execute(o, now)), Reverse(|s.actions|, r));
    RunTwo(s, Execute(o, now), Reverse(|s.actions|, r));
    if o.target in s.targets {
      var t := s.targets[o.target];
      UndoneIff(o.action, t, now, r.at);
      assert undone.targets[o.target] == Undone(o.action, t, now, r.at);
    }
  }

  lemma RunTwo(s: Store, first: Operation, second: Operation)
    ensures Run(s, [first, second]) == Step(Step(s, first), second)
  {
    assert [first, second][1..] == [second] && [second][1..] == [];
    var once := Step(s, first);
    assert Run(once, [second]) == Run(Step(once, second), []);
  }

  // Operations that leave one target, and the actions on it, alone.
  predicate Spares(s: Store, run: seq<Operation>, target: string)
    decreases |run|
  {
    run == [] ||
    (&& (match run[0]
         case Execute(o, _) => o.target != target
         case Reverse(id, _) => id < |s.actions| ==> s.actions[id].order.target != target
         case Outside(other, _) => other != target)
     && Spares(Step(s, run[0]), run[1..], target))
  }

  lemma {:induction false} SparedRun(s: Store, run: seq<Operation>, target: string, id: nat)
    requires Spares(s, run, target) && target in s.targets
    requires id < |s.actions| && s.actions[id].order.target == target
    ensures var s' := Run(s, run);
            && target in s'.targets && s'.targets[target] == s.targets[target]
            && id < |s'.actions| && s'.actions[id] == s.actions[id]
    decreases |run|
  {
    if run != [] { SparedRun(Step(s, run[0]), run[1..], target, id); }
  }

  /** The same when the reversal comes later, after any operations on other targets. */
  lemma ReverseLater(s: Store, o: Order, now: int, between: seq<Operation>, r: Reversal)
    requires o.target in s.targets
    requires Spares(Step(s, Execute(o, now)), between, o.target)
    ensures var s' := Step(Run(Step(s, Execute(o, now)), between), Reverse(|s.actions|, r));
            && o.target in s'.targets
            && (s'.targets[o.target] == s.targets[o.target] <==> UndoneExactly(o.action, s.targets[o.target]))
  {
    var done := Step(s, Execute(o, now));
    SparedRun(done, between, o.target, |s.actions|);
    UndoneIff(o.action, s.targets[o.target], now, r.at);
    assert Step(Run(done, between), Reverse(|s.actions|, r)).targets[o.target]
        == Undone(o.action, s.targets[o.target], now, r.at);
  }

  function Undone(a: ActionType, t: Target, now: int, later: int): Target {
    var applied := Apply(a, t, now);
    if Restores(a) then Apply(RestoreContent, applied, later) else applied
  }

  lemma UndoneIff(a: ActionType, t: Target, now: int, later: int)
    ensures Undone(a, t, now, later) == t <==> UndoneExactly(a, t)
  {
  }

  /** A reversal is not an inverse even for deletions: whatever the visibility was, a deleted video
      comes back public, and a video that was deleted before the action comes back undeleted. */
  lemma ReversalExposes(t: Target, now: int, later: int)
    requires t.Video?
    ensures Undone(DeleteVideo, t, now, later) == Video(Public, t.publishedAt, None)
    ensures t.deletedAt.Some? ==> Undone(HideContent, t, now, later) == Video(Public, t.publishedAt, None)
  {
  }

  // ---------- No action is reversed twice ----------

  ghost predicate Inv(s: Store) {
    && (forall id :: id in s.reversals ==> id < |s.actions| && s.actions[id].reversal.Some?)
    && (forall id :: 0 <= id < |s.actions| && s.actions[id].reversal.Some? ==> id in s.reversals)
    && (forall i, k :: 0 <= i < k < |s.reversals| ==> s.reversals[i] != s.reversals[k])
  }

  lemma InvStep(s: Store, op: Operation)
    requires Inv(s)
    ensures Inv(Step(s, op))
  {
    var s' := Step(s, op);
    if s'.reversals != s.reversals {
      assert s'.reversals == s.reversals + [op.id] && op.id !in s.reversals;
      forall id | 0 <= id < |s'.actions| && s'.actions[id].reversal.Some? ensures id in s'.reversals {
        if id == op.id { assert s'.reversals[|s.reversals|] == id; }
      }
    }
  }

  lemma {:induction false} InvRun(s: Store, run: seq<Operation>)
    requires Inv(s)
    ensures Inv(Run(s, run))
    decreases |run|
  {
    if run != [] {
      InvStep(s, run[0]);
      InvRun(Step(s, run[0]), run[1..]);
    }
  }

  /** Over any operations an action is reversed at most once, and its row says whether it was; once
      it is reversed, every further attempt is refused and changes nothing. */
  lemma ReversedAtMostOnce(targets: map<string, Target>, run: seq<Operation>, id: nat, more: seq<Operation>, r: Reversal)
    ensures var s := Run(Store(targets, [], [], []), run);
            && (forall i, k :: 0 <= i < k < |s.reversals| ==> s.reversals[i] != s.reversals[k])
            && (id < |s.actions| ==> (s.actions[id].reversal.Some? <==> id in s.reversals))
            && (id in s.reversals ==>
                  var later := Run(s, more);
                  ReverseResult(later, id) == AlreadyReversed && Step(later, Reverse(id, r)) == later)
  {
    var start := Store(targets, [], [], []);
    InvRun(start, run);
    var s := Run(start, run);
    if id in s.reversals { StaysReversed(s, more, id); }
  }

  lemma {:induction false} StaysReversed(s: Store, run: seq<Operation>, id: nat)
    requires id < |s.actions| && s.actions[id].reversal.Some?
    ensures var s' := Run(s, run); id < |s'.actions| && s'.actions[id] == s.actions[id]
    decreases |run|
  {
    if run != [] { StaysReversed(Step(s, run[0]), run[1..], id); }
  }

  // ---------- The service ----------

  class ModerationService {
    var targets: map<string, Target>
    var actions: seq<Row>
    var auditLog: seq<AuditEntry>
    ghost var reversals: seq<nat>

    ghost function Value(): Store
      reads this
    {
      Store(targets, actions, auditLog, reversals)
    }

    constructor (targets: map<string, Target>)
      ensures Value() == Store(targets, [], [], [])
    {
      this.targets, actions, auditLog, reversals := targets, [], [], [];
    }

    method ApplyActionToTarget(a: ActionType, target: string, now: int)
      modifies this`targets
      ensures targets == Applied(old(targets), a, target, now)
    {
      if target !in targets {
        return;
      }
      match (a, targets[target]) {
        case (HideContent, Video(_, publishedAt, None)) =>
          targets := targets[target := Video(Private, publishedAt, None)];
        case (HideContent, Comment(_, None)) =>
          targets := targets[target := Comment(Hidden, None)];
        case (UnpublishVideo, Video(_, _, None)) =>
          targets := targets[target := Video(Unlisted, None, None)];
        case (DeleteVideo, Video(_, publishedAt, None)) =>
          targets := targets[target := Video(TakenDown, publishedAt, Some(now))];
        case (RemoveComment, Comment(status, None)) =>
          targets := targets[target := Comment(status, Some(now))];
        case (SuspendUser, User(_, None)) =>
          targets := targets[target := User(Suspended, None)];
        case (BanUser, User(_, None)) =>
          targets := targets[target := User(Banned, None)];
        case (RestoreContent, Video(_, publishedAt, Some(_))) =>
          targets := targets[target := Video(Public, publishedAt, None)];
        case (RestoreContent, Comment(_, Some(_))) =>
          targets := targets[target := Comment(Visible, None)];
        case (RestoreContent, User(Suspended, deletedAt)) =>
          targets := targets[target := User(Active, deletedAt)];
        case (RestoreContent, User(Banned, deletedAt)) =>
          targets := targets[target := User(Active, deletedAt)];
        case _ =>
      }
    }

    method ExecuteAction(o: Order, now: int) returns (id: nat)
      modifies this
      ensures id == |old(actions)|
      ensures Value() == Step(old(Value()), Execute(o, now))
    {
      id := |actions|;
      actions := actions + [Row(o, None)];
      ApplyActionToTarget(o.action, o.target, now);
      auditLog := auditLog + [AuditEntry(o.actor, false, o.action, o.target, o.reason)];
    }

    // The guarded UPDATE; it reports whether a row was affected.
    method MarkReversed(id: nat, r: Reversal) returns (affected: bool)
      modifies this`actions, this`reversals
      ensures affected <==> id < |old(actions)| && old(actions)[id].reversal.None?
      ensures affected ==> actions == old(actions)[id := old(actions)[id].(reversal := Some(r))] && reversals == old(reversals) + [id]
      ensures !affected ==> actions == old(actions) && reversals == old(reversals)
    {
      affected := id < |actions| && actions[id].reversal.None?;
      if affected {
        actions := actions[id := actions[id].(reversal := Some(r))];
        reversals := reversals + [id];
      }
    }

    method ReverseAction(id: nat, r: Reversal) returns (outcome: Outcome)
      modifies this
      ensures outcome == ReverseResult(old(Value()), id)
      ensures Value() == Step(old(Value()), Reverse(id, r))
    {
      if id >= |actions| {
        return NotFound;
      }
      var action := actions[id];
      if action.reversal.Some? {
        return AlreadyReversed;
      }
      var affected := MarkReversed(id, r);
      if !affected {
        return AlreadyReversed;
      }
      var o := action.order;
      if o.action == HideContent || o.action == DeleteVideo || o.action == RemoveComment {
        ApplyActionToTarget(RestoreContent, o.target, r.at);
      }
      auditLog := auditLog + [AuditEntry(r.actor, true, o.action, o.target, Some(r.reason))];
      outcome := Ok;
    }
  }
}
