/** Moderation reports and their appeals (services/api/internal/moderation/repository.go and the
    handlers in services/api/internal/http/handlers/moderation.go that drive them). */
module Reports {
  import opened Options
  import M = Moderation
  import opened Moderation

  datatype Status = Open | Assigned | Resolved | Dismissed

  const PENDING := "pending"
  const GRANTED := "granted"
  const DENIED := "denied"

  /** A row of moderation_reports; the target names a row of the moderated tables. */
  datatype Report = Report(
    target: string,
    status: Status,
    assignee: Option<string>,
    resolvedBy: Option<string>,
    resolvedAt: Option<int>,
    adminNotes: Option<string>,
    appeal: Appeal)

  datatype Appeal = Appeal(
    status: Option<string>,
    reason: Option<string>,
    at: Option<int>,
    decision: Option<string>,
    resolvedBy: Option<string>,
    resolvedAt: Option<int>)

  const NO_APPEAL := Appeal(None, None, None, None, None, None)

  function NewReport(target: string): Report {
    Report(target, Open, None, None, None, None, NO_APPEAL)
  }

  // ---------- Guarded updates of one row ----------

  predicate Unsettled(r: Report) {
    r.status == Open || r.status == Assigned
  }

  function AssignRow(r: Report, assignee: string): Report {
    if Unsettled(r) then r.(status := Assigned, assignee := Some(assignee)) else r
  }

  function UnassignRow(r: Report): Report {
    if r.status == Assigned then r.(status := Open, assignee := None) else r
  }

  function CloseRow(r: Report, actor: string, status: Status, now: int): Report {
    if Unsettled(r) then r.(status := status, resolvedBy := Some(actor), resolvedAt := Some(now)) else r
  }

  predicate Appealable(r: Report) {
    r.status == Resolved && r.appeal.status.None?
  }

  function AppealRow(r: Report, reason: string, now: int): Report {
    if Appealable(r) then r.(appeal := r.appeal.(status := Some(PENDING), reason := Some(reason), at := Some(now))) else r
  }

  function AppendNotes(before: Option<string>, notes: string): Option<string> {
    match before
    case None => Some(notes)
    case Some(text) => Some(text + "\n" + notes)
  }

  function DecideRow(r: Report, actor: string, decision: string, notes: string, now: int): Report {
    if r.appeal.status == Some(PENDING) then
      r.(adminNotes := AppendNotes(r.adminNotes, notes),
         appeal := r.appeal.(status := Some(decision), decision := Some(decision), resolvedBy := Some(actor), resolvedAt := Some(now)))
    else r
  }

  // ---------- The requests ----------

  function ParseAction(name: string): Option<ActionType> {
    if name == "hide_content" then Some(HideContent)
    else if name == "unpublish_video" then Some(UnpublishVideo)
    else if name == "delete_video" then Some(DeleteVideo)
    else if name == "remove_comment" then Some(RemoveComment)
    else if name == "terminate_live_stream" then Some(TerminateStream)
    else if name == "lock_live_chat" then Some(LockChat)
    else if name == "suspend_user" then Some(SuspendUser)
    else if name == "ban_user" then Some(BanUser)
    else if name == "restore_content" then Some(RestoreContent)
    else None
  }

  // resolveRequestValidation
  predicate ValidRequest(action: string) {
    action == "" || ParseAction(action).Some?
  }

  datatype Request =
    | Create(id: string, target: string)
    | Assign(id: string, assignee: string)
    | Unassign(id: string)
    | Resolve(id: string, actor: string, action: string, reason: string, now: int)
    | Dismiss(id: string, actor: string, now: int)
    | SetNotes(id: string, notes: string)
    | SubmitAppeal(id: string, reason: string, now: int)
    | ResolveAppeal(id: string, actor: string, decision: string, notes: string, now: int)
    | Moderate(op: Operation)  // actions and reversals requested on their own

  datatype Answer = Done | BadRequest | Refused

  datatype State = State(reports: map<string, Report>, store: Store)

  function AnswerOf(s: State, q: Request): Answer {
    match q
    case Create(id, target) => if id in s.reports then Refused else Done
    case Assign(id, _) => if id in s.reports && Unsettled(s.reports[id]) then Done else Refused
    case Unassign(_) => Done
    case Resolve(id, _, action, _, _) =>
      if !ValidRequest(action) then BadRequest
      else if id in s.reports && Unsettled(s.reports[id]) then Done
      else Refused
    case Dismiss(id, _, _) => if id in s.reports && Unsettled(s.reports[id]) then Done else Refused
    case SetNotes(_, _) => Done
    case SubmitAppeal(id, reason, _) =>
      if reason == "" || |reason| > 2000 then BadRequest
      else if id in s.reports && Appealable(s.reports[id]) then Done
      else Refused
    case ResolveAppeal(_, _, decision, _, _) => if decision != GRANTED && decision != DENIED then BadRequest else Done
    case Moderate(_) => Done
  }

  /** The row a successful request leaves behind. */
  function RowAfter(r: Report, q: Request): Report {
    match q
    case Assign(_, assignee) => AssignRow(r, assignee)
    case Unassign(_) => UnassignRow(r)
    case Resolve(_, actor, _, _, now) => CloseRow(r, actor, Resolved, now)
    case Dismiss(_, actor, now) => CloseRow(r, actor, Dismissed, now)
    case SetNotes(_, notes) => r.(adminNotes := Some(notes))
    case SubmitAppeal(_, reason, now) => AppealRow(r, reason, now)
    case ResolveAppeal(_, actor, decision, notes, now) => DecideRow(r, actor, decision, notes, now)
    case _ => r
  }

  function ReportsAfter(s: State, q: Request): map<string, Report> {
    if AnswerOf(s, q) != Done || q.Moderate? then s.reports
    else if q.Create? then s.reports[q.id := NewReport(q.target)]
    else if q.id in s.reports then s.reports[q.id := RowAfter(s.reports[q.id], q)]
    else s.reports
  }

  // A resolution that named an action has it executed on the report's target.
  predicate Acts(s: State, q: Request) {
    q.Resolve? && AnswerOf(s, q) == Done && q.action != ""
  }

  // The order that the handler gives, on account of the report.
  function OrderFor(s: State, q: Request): Order
    requires Acts(s, q)
  {
    Order(q.actor, Some(q.id), ParseAction(q.action).value, s.reports[q.id].target, Some(q.reason))
  }

  function Next(s: State, q: Request): State {
    var reports := ReportsAfter(s, q);
    if Acts(s, q) then State(reports, M.Step(s.store, Execute(OrderFor(s, q), q.now)))
    else if q.Moderate? then State(reports, M.Step(s.store, q.op))
    else State(reports, s.store)
  }

  function After(s: State, requests: seq<Request>): State
    decreases |requests|
  {
    if requests == [] then s else After(Next(s, requests[0]), requests[1..])
  }

  // ---------- What every reachable row satisfies ----------

  predicate AppealSound(a: Appeal) {
    && (a.status == None || a.status == Some(PENDING) || a.status == Some(GRANTED) || a.status == Some(DENIED))
    && (a.status.None? <==> a.reason.None?)
    && (a.status.None? <==> a.at.None?)
    && (a.decision.Some? <==> a.status == Some(GRANTED) || a.status == Some(DENIED))
    && (a.decision.Some? ==> a.decision == a.status)
    && (a.decision.Some? <==> a.resolvedBy.Some?)
    && (a.decision.Some? <==> a.resolvedAt.Some?)
  }

  predicate Sound(r: Report) {
    && (r.status == Open <==> r.resolvedAt.None? && r.assignee.None?)
    && (r.status == Assigned <==> r.resolvedAt.None? && r.assignee.Some?)
    && (r.status == Resolved || r.status == Dismissed <==> r.resolvedAt.Some?)
    && (r.resolvedAt.Some? <==> r.resolvedBy.Some?)
    && (r.appeal.status.Some? ==> r.status == Resolved)
    && AppealSound(r.appeal)
  }

  ghost predicate Inv(s: State) {
    forall id :: id in s.reports ==> Sound(s.reports[id])
  }

  lemma RowStaysSound(r: Report, q: Request)
    requires Sound(r)
    requires q.ResolveAppeal? ==> q.decision == GRANTED || q.decision == DENIED
    ensures Sound(RowAfter(r, q))
  {
  }

  lemma SoundNext(s: State, q: Request, id: string)
    requires id in ReportsAfter(s, q) && (id in s.reports ==> Sound(s.reports[id]))
    ensures Sound(ReportsAfter(s, q)[id])
  {
    if id in s.reports && AnswerOf(s, q) == Done { RowStaysSound(s.reports[id], q); }
  }

  lemma InvNext(s: State, q: Request)
    requires Inv(s)
    ensures Inv(Next(s, q))
  {
    var s' := Next(s, q);
    forall id | id in s'.reports ensures Sound(s'.reports[id]) {
      SoundNext(s, q, id);
    }
  }

  lemma {:induction false} InvAfter(s: State, requests: seq<Request>)
    requires Inv(s)
    ensures Inv(After(s, requests))
    decreases |requests|
  {
    if requests != [] {
      InvNext(s, requests[0]);
      InvAfter(Next(s, requests[0]), requests[1..]);
    }
  }

  // How far a row has come: open or assigned, dismissed or resolved, appealed, decided.
  function Stage(r: Report): nat {
    if Unsettled(r) then 0
    else if r.appeal.status.None? then 1
    else if r.appeal.status == Some(PENDING) then 2
    else 3
  }

  /** What never changes again once a row has reached its stage. */
  ghost predicate Keeps(r: Report, r': Report) {
    && r'.target == r.target
    && Stage(r) <= Stage(r')
    && (Stage(r) >= 1 ==>
          r'.status == r.status && r'.assignee == r.assignee && r'.resolvedBy == r.resolvedBy && r'.resolvedAt == r.resolvedAt)
    && (Stage(r) >= 2 ==> r'.appeal.reason == r.appeal.reason && r'.appeal.at == r.appeal.at)
    && (Stage(r) == 3 ==> r'.appeal == r.appeal)
  }

  lemma RowKeeps(r: Report, q: Request)
    requires Sound(r)
    ensures Keeps(r, RowAfter(r, q))
  {
  }

  lemma NextKeeps(s: State, q: Request, id: string)
    requires Inv(s) && id in s.reports
    ensures id in Next(s, q).reports && Keeps(s.reports[id], Next(s, q).reports[id])
  {
    RowKeeps(s.reports[id], q);
  }

  lemma {:induction false} AfterKeeps(s: State, requests: seq<Request>, id: string)
    requires Inv(s) && id in s.reports
    ensures id in After(s, requests).reports && Keeps(s.reports[id], After(s, requests).reports[id])
    decreases |requests|
  {
    if requests != [] {
      NextKeeps(s, requests[0], id);
      InvNext(s, requests[0]);
      AfterKeeps(Next(s, requests[0]), requests[1..], id);
    }
  }

  // ---------- The life of a report ----------

  /** Whatever requests are made, in whatever order: the status of a report says exactly who holds it
      and whether it was closed, an appeal exists only on a resolved report, and each report moves
      forward only; closing and deciding an appeal are final. */
  lemma ReportLifecycle(store: Store, requests: seq<Request>, more: seq<Request>, id: string)
    ensures var s := After(State(map[], store), requests);
            var s' := After(s, more);
            id in s.reports ==>
              && Sound(s.reports[id])
              && id in s'.reports
              && Keeps(s.reports[id], s'.reports[id])
  {
    var start := State(map[], store);
    InvAfter(start, requests);
    var s := After(start, requests);
    if id in s.reports { AfterKeeps(s, more, id); }
  }

  // ---------- At most one action for a report ----------

  /** The action rows that name a report. */
  function RowsFor(actions: seq<Row>, id: string): nat {
    var n := |actions|;
    if n == 0 then 0 else RowsFor(actions[..n - 1], id) + if actions[n - 1].order.report == Some(id) then 1 else 0
  }

  // The actions requested on their own that name the report.
  function Direct(requests: seq<Request>, id: string): nat {
    if requests == [] then 0
    else
      var q := requests[0];
      (if q.Moderate? && q.op.Execute? && q.op.order.report == Some(id) then 1 else 0) + Direct(requests[1..], id)
  }

  // The actions executed by resolving the report.
  function ByResolution(s: State, requests: seq<Request>, id: string): nat
    decreases |requests|
  {
    if requests == [] then 0
    else
      (if Acts(s, requests[0]) && requests[0].id == id then 1 else 0) + ByResolution(Next(s, requests[0]), requests[1..], id)
  }

  lemma {:induction false} RowsReversed(actions: seq<Row>, k: nat, reversal: Reversal, id: string)
    requires k < |actions|
    ensures RowsFor(actions[k := actions[k].(reversal := Some(reversal))], id) == RowsFor(actions, id)
  {
    var n := |actions|;
    var actions' := actions[k := actions[k].(reversal := Some(reversal))];
    if k < n - 1 {
      assert actions'[..n - 1] == actions[..n - 1][k := actions[k].(reversal := Some(reversal))];
      RowsReversed(actions[..n - 1], k, reversal, id);
    } else {
      assert actions'[..n - 1] == actions[..n - 1];
    }
  }

  lemma RowsStep(store: Store, op: Operation, id: string)
    ensures RowsFor(M.Step(store, op).actions, id)
         == RowsFor(store.actions, id) + if op.Execute? && op.order.report == Some(id) then 1 else 0
  {
    match op
    case Execute(o, _) => assert (store.actions + [Row(o, None)])[..|store.actions|] == store.actions;
    case Reverse(k, r) => if ReverseResult(store, k) == Ok { RowsReversed(store.actions, k, r, id); }
    case Outside(_, _) =>
  }

  lemma {:induction false} RowsCounted(s: State, requests: seq<Request>, id: string)
    ensures RowsFor(After(s, requests).store.actions, id)
         == RowsFor(s.store.actions, id) + Direct(requests, id) + ByResolution(s, requests, id)
    decreases |requests|
  {
    if requests != [] {
      var q := requests[0];
      if Acts(s, q) { RowsStep(s.store, Execute(OrderFor(s, q), q.now), id); }
      if q.Moderate? { RowsStep(s.store, q.op, id); }
      RowsCounted(Next(s, q), requests[1..], id);
    }
  }

  predicate Settled(s: State, id: string) {
    id in s.reports && !Unsettled(s.reports[id])
  }

  lemma SettledNext(s: State, q: Request, id: string)
    ensures Settled(s, id) ==> Settled(Next(s, q), id) && !(Acts(s, q) && q.id == id)
    ensures Settled(s, id) ==> Next(s, q).reports[id].status == s.reports[id].status
    ensures Acts(s, q) && q.id == id ==> Settled(Next(s, q), id) && Next(s, q).reports[id].status == Resolved
  {
  }

  lemma {:induction false} ResolvedOnce(s: State, requests: seq<Request>, id: string)
    ensures ByResolution(s, requests, id) <= if Settled(s, id) then 0 else 1
    ensures Settled(s, id) ==> Settled(After(s, requests), id) && After(s, requests).reports[id].status == s.reports[id].status
    ensures ByResolution(s, requests, id) == 1 ==> id in After(s, requests).reports && After(s, requests).reports[id].status == Resolved
    decreases |requests|
  {
    if requests != [] {
      SettledNext(s, requests[0], id);
      ResolvedOnce(Next(s, requests[0]), requests[1..], id);
    }
  }

  /** Over any requests, the action rows that name a report are those requested on their own plus at most
      one that resolving the report executed, and that one only if the report ends up resolved. */
  lemma OneActionPerReport(store: Store, requests: seq<Request>, id: string)
    ensures var start := State(map[], store);
            var s := After(start, requests);
            && RowsFor(s.store.actions, id) == RowsFor(store.actions, id) + Direct(requests, id) + ByResolution(start, requests, id)
            && ByResolution(start, requests, id) <= 1
            && (ByResolution(start, requests, id) == 1 ==> id in s.reports && s.reports[id].status == Resolved)
  {
    RowsCounted(State(map[], store), requests, id);
    ResolvedOnce(State(map[], store), requests, id);
  }

  /** A decision on an appeal is answered with success whether or not there was one to decide; it
      changes the report exactly when an appeal was pending. */
  lemma DecisionTakesEffectIff(s: State, id: string, actor: string, decision: string, notes: string, now: int)
    requires Inv(s) && id in s.reports && decision in {GRANTED, DENIED}
    ensures var q := ResolveAppeal(id, actor, decision, notes, now);
            && AnswerOf(s, q) == Done
            && (Next(s, q) != s <==> s.reports[id].appeal.status == Some(PENDING))
  {
    var r := s.reports[id];
    var q := ResolveAppeal(id, actor, decision, notes, now);
    if r.appeal.status == Some(PENDING) {
      assert Next(s, q).reports[id].appeal.decision == Some(decision);
    } else {
      assert Next(s, q).reports == s.reports;
    }
  }

  // ---------- The handlers ----------

  class ModerationHandler {
    var reports: map<string, Report>
    const service: ModerationService

    ghost function Value(): State
      reads this, service
    {
      State(reports, service.Value())
    }

    constructor (service: ModerationService)
      ensures this.service == service
      ensures Value() == State(map[], service.Value())
    {
      this.service := service;
      reports := map[];
    }

    method CreateReport(id: string, target: string) returns (answer: Answer)
      modifies this
      ensures answer == AnswerOf(old(Value()), Create(id, target))
      ensures Value() == Next(old(Value()), Create(id, target))
    {
      if id in reports {
        return Refused;
      }
      reports := reports[id := NewReport(target)];
      answer := Done;
    }

    method AssignReport(id: string, assignee: string) returns (answer: Answer)
      modifies this
      ensures answer == AnswerOf(old(Value()), Assign(id, assignee))
      ensures Value() == Next(old(Value()), Assign(id, assignee))
    {
      if id !in reports || (reports[id].status != Open && reports[id].status != Assigned) {
        return Refused;
      }
      reports := reports[id := reports[id].(assignee := Some(assignee), status := Assigned)];
      answer := Done;
    }

    method UnassignReport(id: string)
      modifies this
      ensures Value() == Next(old(Value()), Unassign(id))
    {
      if id in reports && reports[id].status == Assigned {
        reports := reports[id := reports[id].(assignee := None, status := Open)];
      }
    }

    // The guarded UPDATE behind resolving and dismissing.
    method Close(id: string, actor: string, status: Status, now: int) returns (affected: bool)
      modifies this`reports
      ensures affected <==> id in old(reports) && Unsettled(old(reports)[id])
      ensures reports == if affected then old(reports)[id := CloseRow(old(reports)[id], actor, status, now)] else old(reports)
    {
      affected := id in reports && (reports[id].status == Open || reports[id].status == Assigned);
      if affected {
        reports := reports[id := reports[id].(status := status, resolvedBy := Some(actor), resolvedAt := Some(now))];
      }
    }

    method ResolveReport(id: string, actor: string, action: string, reason: string, now: int) returns (answer: Answer)
      modifies this, service
      ensures answer == AnswerOf(old(Value()), Resolve(id, actor, action, reason, now))
      ensures Value() == Next(old(Value()), Resolve(id, actor, action, reason, now))
    {
      if !ValidRequest(action) {
        return BadRequest;
      }
      var affected := Close(id, actor, Resolved, now);
      if !affected {
        return Refused;
      }
      if action != "" {
        var order := Order(actor, Some(id), ParseAction(action).value, reports[id].target, Some(reason));
        var _ := service.ExecuteAction(order, now);
      }
      answer := Done;
    }

    method DismissReport(id: string, actor: string, now: int) returns (answer: Answer)
      modifies this
      ensures answer == AnswerOf(old(Value()), Dismiss(id, actor, now))
      ensures Value() == Next(old(Value()), Dismiss(id, actor, now))
    {
      var affected := Close(id, actor, Dismissed, now);
      answer := if affected then Done else Refused;
    }

    method SetAdminNotes(id: string, notes: string)
      modifies this
      ensures Value() == Next(old(Value()), SetNotes(id, notes))
    {
      if id in reports {
        reports := reports[id := reports[id].(adminNotes := Some(notes))];
      }
    }

    method SubmitAppealOf(id: string, reason: string, now: int) returns (answer: Answer)
      modifies this
      ensures answer == AnswerOf(old(Value()), SubmitAppeal(id, reason, now))
      ensures Value() == Next(old(Value()), SubmitAppeal(id, reason, now))
    {
      if reason == "" || |reason| > 2000 {
        return BadRequest;
      }
      if id !in reports || reports[id].status != Resolved || reports[id].appeal.status != None {
        return Refused;
      }
      var appeal := reports[id].appeal;
      appeal := appeal.(status := Some(PENDING), reason := Some(reason), at := Some(now));
      reports := reports[id := reports[id].(appeal := appeal)];
      answer := Done;
    }

    method DecideAppeal(id: string, actor: string, decision: string, notes: string, now: int) returns (answer: Answer)
      modifies this
      ensures answer == AnswerOf(old(Value()), ResolveAppeal(id, actor, decision, notes, now))
      ensures Value() == Next(old(Value()), ResolveAppeal(id, actor, decision, notes, now))
    {
      if decision != GRANTED && decision != DENIED {
        return BadRequest;
      }
      if id in reports && reports[id].appeal.status == Some(PENDING) {
        var row := reports[id];
        var appeal := row.appeal.(status := Some(decision), decision := Some(decision), resolvedBy := Some(actor), resolvedAt := Some(now));
        reports := reports[id := row.(appeal := appeal, adminNotes := AppendNotes(row.adminNotes, notes))];
      }
      answer := Done;
    }
  }
}
