/** What a report says about its past: whoever holds it, how it was closed, what was appealed and decided,
    and which action was taken on its account (services/api/internal/moderation/repository.go and
    services/api/internal/http/handlers/moderation.go), over every sequence of requests. */
module ReportTrails {
  import opened Options
  import M = Moderation
  import opened Moderation
  import R = Reports
  import opened Reports

  // ---------- Action names ----------

  /** The name of each type of action, as it is stored. */
  function Name(a: ActionType): string {
    match a
    case HideContent => "hide_content"
    case UnpublishVideo => "unpublish_video"
    case DeleteVideo => "delete_video"
    case RemoveComment => "remove_comment"
    case TerminateStream => "terminate_live_stream"
    case LockChat => "lock_live_chat"
    case SuspendUser => "suspend_user"
    case BanUser => "ban_user"
    case RestoreContent => "restore_content"
  }

  /** The handler accepts exactly the stored names, and each stands for its own action. */
  lemma NamesAction(name: string, a: ActionType)
    ensures ParseAction(name) == Some(a) <==> name == Name(a)
  {
    match a
    case HideContent =>
    case UnpublishVideo =>
    case DeleteVideo =>
    case RemoveComment =>
    case TerminateStream =>
    case LockChat =>
    case SuspendUser =>
    case BanUser =>
    case RestoreContent =>
  }

  // ---------- Answers ----------

  /** For the requests that report whether they did anything, "done" means exactly that the reports
      changed; every other answer means that nothing changed at all. */
  lemma AnswersAreTrue(s: State, q: Request)
    ensures AnswerOf(s, q) != Done ==> Next(s, q) == s
    ensures q.Create? || q.Resolve? || q.Dismiss? || q.SubmitAppeal? ==>
              (AnswerOf(s, q) == Done <==> Next(s, q).reports != s.reports)
  {
    if AnswerOf(s, q) == Done && (q.Resolve? || q.Dismiss? || q.SubmitAppeal?) {
      assert Next(s, q).reports[q.id] != s.reports[q.id];
    }
  }

  /** When a report can be assigned, closed and appealed, by what has been done to it before. */
  lemma DoneIff(s: State, q: Request)
    requires R.Inv(s)
    ensures q.Create? ==> (AnswerOf(s, q) == Done <==> q.id !in s.reports)
    ensures q.Assign? || q.Dismiss? ==> (AnswerOf(s, q) == Done <==> q.id in s.reports && s.reports[q.id].resolvedAt.None?)
    ensures q.Resolve? ==>
              (AnswerOf(s, q) == Done <==>
                && q.id in s.reports && s.reports[q.id].resolvedAt.None?
                && (q.action == "" || exists a :: q.action == Name(a)))
    ensures q.SubmitAppeal? ==>
              (AnswerOf(s, q) == Done <==>
                && q.id in s.reports && s.reports[q.id].status == Resolved && s.reports[q.id].appeal.at.None?
                && 0 < |q.reason| <= 2000)
  {
    if (q.Assign? || q.Dismiss? || q.Resolve? || q.SubmitAppeal?) && q.id in s.reports { assert Sound(s.reports[q.id]); }
    if q.Resolve? {
      if ParseAction(q.action).Some? { NamesAction(q.action, ParseAction(q.action).value); }
      if a :| q.action == Name(a) { NamesAction(q.action, a); }
    }
  }

  // ---------- The action taken ----------

  lemma ResolutionActs(s: State, q: Request, a: ActionType)
    requires q.Resolve? && AnswerOf(s, q) == Done && q.action == Name(a)
    ensures q.id in s.reports
    ensures var target, store, store' := s.reports[q.id].target, s.store, Next(s, q).store;
            && store'.actions == store.actions + [Row(Order(q.actor, Some(q.id), a, target, Some(q.reason)), None)]
            && store'.targets.Keys == store.targets.Keys
            && (target in store.targets ==> store'.targets[target] == Apply(a, store.targets[target], q.now))
            && (forall k :: k in store.targets && k != target ==> store'.targets[k] == store.targets[k])
  {
    NamesAction(q.action, a);
    assert |Name(a)| > 0;
  }

  /** Resolving a report with a named action executes that action, by the one who resolved it and on its
      account, on the target named when the report was created, whatever happened in between; resolving it
      without one, like every other request about reports, executes nothing. */
  lemma ResolutionActsOnReported(s: State, create: Request, run: seq<Request>, q: Request, a: ActionType)
    requires R.Inv(s) && create.Create? && AnswerOf(s, create) == Done
    requires q.Resolve? && q.id == create.id && q.action == Name(a)
    requires AnswerOf(After(Next(s, create), run), q) == Done
    ensures var m := After(Next(s, create), run);
            var m' := Next(m, q);
            && m'.store.actions == m.store.actions + [Row(Order(q.actor, Some(create.id), a, create.target, Some(q.reason)), None)]
            && (create.target in m.store.targets ==>
                  && create.target in m'.store.targets
                  && m'.store.targets[create.target] == Apply(a, m.store.targets[create.target], q.now))
  {
    InvNext(s, create);
    AfterKeeps(Next(s, create), run, create.id);
    ResolutionActs(After(Next(s, create), run), q, a);
  }

  lemma NothingElseActs(s: State, q: Request)
    requires !q.Moderate? && (q.Resolve? ==> q.action == "")
    ensures Next(s, q).store == s.store
  {
  }

  // ---------- What the row keeps ----------

  /** Whoever closes a report, and when and how, stays on it for good. */
  lemma ClosingStands(s: State, q: Request, run: seq<Request>)
    requires R.Inv(s) && (q.Resolve? || q.Dismiss?) && AnswerOf(s, q) == Done
    ensures var s' := After(Next(s, q), run);
            && q.id in s'.reports
            && s'.reports[q.id].status == (if q.Resolve? then Resolved else Dismissed)
            && s'.reports[q.id].resolvedBy == Some(q.actor) && s'.reports[q.id].resolvedAt == Some(q.now)
  {
    InvNext(s, q);
    AfterKeeps(Next(s, q), run, q.id);
  }

  /** An appeal keeps its reason and its time for good, and waits until it is decided. */
  lemma AppealStands(s: State, q: Request, run: seq<Request>)
    requires R.Inv(s) && q.SubmitAppeal? && AnswerOf(s, q) == Done
    ensures Next(s, q).reports[q.id].appeal.status == Some("pending")
    ensures var s' := After(Next(s, q), run);
            && q.id in s'.reports
            && s'.reports[q.id].appeal.reason == Some(q.reason) && s'.reports[q.id].appeal.at == Some(q.now)
            && s'.reports[q.id].appeal.status in {Some("pending"), Some("granted"), Some("denied")}
  {
    InvNext(s, q);
    AfterKeeps(Next(s, q), run, q.id);
    InvAfter(Next(s, q), run);
    assert Sound(After(Next(s, q), run).reports[q.id]);
  }

  /** The first decision on a pending appeal stands, with its author and time; its notes end the admin
      notes, after all that had been noted before. */
  lemma DecisionStands(s: State, q: Request, run: seq<Request>)
    requires R.Inv(s) && q.ResolveAppeal? && q.decision in {GRANTED, DENIED}
    requires q.id in s.reports && s.reports[q.id].appeal.status == Some(PENDING)
    ensures var s' := After(Next(s, q), run);
            && q.id in s'.reports
            && s'.reports[q.id].appeal.status == Some(q.decision) && s'.reports[q.id].appeal.decision == Some(q.decision)
            && s'.reports[q.id].appeal.resolvedBy == Some(q.actor) && s'.reports[q.id].appeal.resolvedAt == Some(q.now)
    ensures var before, after := s.reports[q.id].adminNotes, Next(s, q).reports[q.id].adminNotes;
            && after.Some? && |q.notes| <= |after.value| && after.value[|after.value| - |q.notes|..] == q.notes
            && (before.None? ==> after.value == q.notes)
            && (before.Some? ==> before.value <= after.value && |after.value| == |before.value| + 1 + |q.notes|
                                 && after.value[|before.value|] == '\n')
  {
    InvNext(s, q);
    AfterKeeps(Next(s, q), run, q.id);
  }

  /** Notes are replaced by SetNotes and appended to by a decision; nothing else touches them. */
  lemma NotesChangeOnlyBy(s: State, q: Request, id: string)
    requires id in s.reports
    ensures id in Next(s, q).reports
    ensures q.SetNotes? && q.id == id ==> Next(s, q).reports[id] == s.reports[id].(adminNotes := Some(q.notes))
    ensures Next(s, q).reports[id].adminNotes != s.reports[id].adminNotes ==>
              (q.SetNotes? || (q.ResolveAppeal? && s.reports[id].appeal.status == Some(PENDING))) && q.id == id
  {
  }

  // ---------- Who holds a report ----------

  /** The assignee that the last assignment before the report was closed left behind, or none if it was
      taken back. */
  function Holder(s: State, run: seq<Request>, id: string, current: Option<string>): Option<string>
    decreases |run|
  {
    if run == [] then current
    else
      var q := run[0];
      var open := id in s.reports && s.reports[id].resolvedAt.None?;
      var holder :=
        if open && q.Assign? && q.id == id then Some(q.assignee)
        else if open && q.Unassign? && q.id == id then None
        else current;
      Holder(Next(s, q), run[1..], id, holder)
  }

  lemma AssigneeStep(s: State, q: Request, id: string)
    requires id in s.reports && Sound(s.reports[id])
    ensures id in Next(s, q).reports
    ensures var open := s.reports[id].resolvedAt.None?;
            Next(s, q).reports[id].assignee ==
              if open && q.Assign? && q.id == id then Some(q.assignee)
              else if open && q.Unassign? && q.id == id then None
              else s.reports[id].assignee
  {
  }

  lemma {:induction false} HolderIsAssignee(s: State, run: seq<Request>, id: string)
    requires R.Inv(s) && id in s.reports
    ensures id in After(s, run).reports
    ensures After(s, run).reports[id].assignee == Holder(s, run, id, s.reports[id].assignee)
    decreases |run|
  {
    if run != [] {
      var q := run[0];
      AssigneeStep(s, q, id);
      InvNext(s, q);
      HolderIsAssignee(Next(s, q), run[1..], id);
    }
  }

  // ---------- Reasons of appeals ----------

  predicate ReasonFits(r: Report) {
    r.appeal.reason.Some? ==> 0 < |r.appeal.reason.value| <= 2000
  }

  /** No report ever carries an appeal without a reason or with one of more than 2000 characters. */
  lemma {:induction false} ReasonsFit(s: State, run: seq<Request>)
    requires forall id :: id in s.reports ==> ReasonFits(s.reports[id])
    ensures forall id :: id in After(s, run).reports ==> ReasonFits(After(s, run).reports[id])
    decreases |run|
  {
    if run != [] {
      var s' := Next(s, run[0]);
      forall id | id in s'.reports ensures ReasonFits(s'.reports[id]) {
        if id in s.reports { assert ReasonFits(s.reports[id]); }
      }
      ReasonsFit(s', run[1..]);
    }
  }
}
