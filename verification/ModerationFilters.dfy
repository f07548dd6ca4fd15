/** The WHERE builders of ListReports, ListActions and ListAuditLog
    (services/api/internal/moderation/repository.go). */
module ModerationFilters {
  import opened Options
  import opened Decimal
  import opened SqlText

  const FIRST := ["1=1"]

  function ConditionText(c: Condition): string {
    " " + ("AND" + (" " + (c.column + (" " + (c.op + (" " + "$"))))))
  }

  /** The text and arguments written for a list of conditions. */
  function WhereText(conditions: seq<Condition>): string {
    var n := |conditions|;
    if n == 0 then "1=1" else WhereText(conditions[..n - 1]) + ConditionText(conditions[n - 1]) + Print(n)
  }

  ghost predicate Built(where: string, args: seq<Datum>, i: int, conditions: seq<Condition>) {
    where == WhereText(conditions) && args == Values(conditions) && i == |conditions| + 1
  }

  lemma AppendedWords(where: string, c: Condition, n: nat)
    requires Plain(c) && n >= 1
    ensures Words(where + ConditionText(c) + Print(n)) == Words(where) + ["AND"] + ConditionWords(c, n)
  {
    var tail := c.column + (" " + (c.op + (" " + Placeholder(n))));
    assert Word(c.op) && Word(Placeholder(n)) by { PlaceholderResolves(n, seq(n, _ => Number(0)), Row(map[], iset{})); }
    WordsThree(c.column, c.op, Placeholder(n));
    AndWords(where, tail);
    ConditionTextNumbered(where, c, Print(n));
  }

  lemma AndWords(where: string, tail: string)
    ensures Words(where + (" " + ("AND" + (" " + tail)))) == Words(where) + ["AND"] + Words(tail)
  {
    WordsOne("AND");
    WordsConcat("AND", " ", tail);
    WordsConcat(where, " ", "AND" + (" " + tail));
  }

  lemma ConditionTextNumbered(where: string, c: Condition, n: string)
    ensures where + ConditionText(c) + n == where + (" " + ("AND" + (" " + (c.column + (" " + (c.op + (" " + ("$" + n))))))))
  {
  }

  lemma {:induction false} WhereWords(conditions: seq<Condition>)
    requires AllPlain(conditions)
    ensures Words(WhereText(conditions)) == Conjoined(FIRST, 0, conditions)
  {
    var n := |conditions|;
    if n == 0 {
      WordsOne("1=1");
    } else {
      WhereWords(conditions[..n - 1]);
      AppendedWords(WhereText(conditions[..n - 1]), conditions[n - 1], n);
    }
  }

  function TextCondition(column: string, wanted: Option<string>): seq<Condition> {
    if wanted.None? then [] else [Condition(column, "=", Text(wanted.value))]
  }

  function BoundCondition(column: string, op: string, bound: Option<int>): seq<Condition> {
    if bound.None? then [] else [Condition(column, op, Number(bound.value))]
  }

  /** What every filter that is set does: the text with the next placeholder, the argument, the next
      number. */
  method And(where: string, args: seq<Datum>, i: int, column: string, op: string, value: Datum,
             ghost conditions: seq<Condition>)
    returns (where': string, args': seq<Datum>, i': int)
    requires Built(where, args, i, conditions)
    ensures Built(where', args', i', conditions + [Condition(column, op, value)])
  {
    assert (conditions + [Condition(column, op, value)])[..|conditions|] == conditions;
    var n := Itoa(i);
    var text := " AND " + column + " " + op + " $";
    assert text == ConditionText(Condition(column, op, value));
    where' := where + text + n;
    args' := args + [value];
    i' := i + 1;
  }

  method AndText(where: string, args: seq<Datum>, i: int, column: string, wanted: Option<string>,
                 ghost conditions: seq<Condition>)
    returns (where': string, args': seq<Datum>, i': int)
    requires Built(where, args, i, conditions)
    ensures Built(where', args', i', conditions + TextCondition(column, wanted))
  {
    where', args', i' := where, args, i;
    assert conditions + [] == conditions;
    if wanted != None {
      where', args', i' := And(where, args, i, column, "=", Text(wanted.value), conditions);
    }
  }

  method AndBound(where: string, args: seq<Datum>, i: int, column: string, op: string, bound: Option<int>,
                  ghost conditions: seq<Condition>)
    returns (where': string, args': seq<Datum>, i': int)
    requires Built(where, args, i, conditions)
    ensures Built(where', args', i', conditions + BoundCondition(column, op, bound))
  {
    where', args', i' := where, args, i;
    assert conditions + [] == conditions;
    if bound != None {
      where', args', i' := And(where, args, i, column, op, Number(bound.value), conditions);
    }
  }

  // The arguments may be extended: the page query adds its limit and offset.
  lemma WhereMeaning(conditions: seq<Condition>, more: seq<Datum>, row: Row)
    requires AllPlain(conditions)
    ensures Holds(Words(WhereText(conditions)), Values(conditions) + more, row) <==> SatisfiesAll(row, conditions)
  {
    var args := Values(conditions) + more;
    WhereWords(conditions);
    assert [] + Values(conditions) == Values(conditions);
    ConjoinedMeaning(FIRST, [], conditions, args, row);
    HoldsWithoutOr(Conjoined(FIRST, 0, conditions), args, row);
    FindWithin(FIRST, "AND", []);
  }

  // ---------- The page of a listing ----------

  function PageLimit(limit: int): (n: int)
    ensures 1 <= n <= 100 && (1 <= limit <= 100 ==> n == limit) && (n != limit ==> n == 50)
  {
    if limit <= 0 || limit > 100 then 50 else limit
  }

  ghost predicate Pages(page: string, args: seq<Datum>, limit: int, offset: int) {
    var ws := Words(page);
    var row := Row(map[], iset{});
    && |ws| == 4
    && ws[0] == "LIMIT" && Operand(ws[1], args, row) == Some(Number(limit))
    && ws[2] == "OFFSET" && Operand(ws[3], args, row) == Some(Number(offset))
  }

  method PageText(args: seq<Datum>, i: int, limit: int, offset: int) returns (page: string, pageArgs: seq<Datum>)
    requires i == |args| + 1
    ensures pageArgs == args + [Number(limit), Number(offset)]
    ensures Pages(page, pageArgs, limit, offset)
  {
    pageArgs := args + [Number(limit), Number(offset)];
    var first := Itoa(i);
    var second := Itoa(i + 1);
    page := "LIMIT $" + first + " OFFSET $" + second;
    PageWords(page, i, pageArgs);
  }

  lemma PageWords(page: string, i: nat, args: seq<Datum>)
    requires 1 <= i == |args| - 1
    requires page == "LIMIT $" + Print(i) + " OFFSET $" + Print(i + 1)
    requires args[i - 1].Number? && args[i].Number?
    ensures Pages(page, args, args[i - 1].number, args[i].number)
  {
    var row := Row(map[], iset{});
    PlaceholderResolves(i, args, row);
    PlaceholderResolves(i + 1, args, row);
    PageTokens(page, i, args);
  }

  lemma PageTokens(page: string, i: nat, args: seq<Datum>)
    requires 1 <= i == |args| - 1
    requires page == "LIMIT $" + Print(i) + " OFFSET $" + Print(i + 1)
    ensures Words(page) == ["LIMIT", Placeholder(i), "OFFSET", Placeholder(i + 1)]
  {
    assert Word(Placeholder(i)) && Word(Placeholder(i + 1)) by {
      PlaceholderResolves(i, args, Row(map[], iset{}));
      PlaceholderResolves(i + 1, args, Row(map[], iset{}));
    }
    PageSplit(Placeholder(i), Placeholder(i + 1));
    PageJoined(Print(i), Print(i + 1));
  }

  lemma PageJoined(i: string, j: string)
    ensures "LIMIT $" + i + " OFFSET $" + j == "LIMIT" + (" " + ("$" + i + (" " + ("OFFSET" + (" " + ("$" + j))))))
  {
  }

  lemma PageSplit(limit: string, offset: string)
    requires Word(limit) && Word(offset)
    ensures Words("LIMIT" + (" " + (limit + (" " + ("OFFSET" + (" " + offset)))))) == ["LIMIT", limit, "OFFSET", offset]
  {
    WordsThree(limit, "OFFSET", offset);
    WordsOne("LIMIT");
    WordsConcat("LIMIT", " ", limit + (" " + ("OFFSET" + (" " + offset))));
  }

  // ---------- What the filters ask for ----------

  predicate Equals(row: Row, column: string, wanted: Option<string>) {
    wanted.None? || Column(row, column) == Some(Text(wanted.value))
  }

  predicate From(row: Row, column: string, bound: Option<int>) {
    bound.None? || AtLeast(row, column, bound.value)
  }

  predicate UpTo(row: Row, column: string, bound: Option<int>) {
    bound.None? || AtMost(row, column, bound.value)
  }

  predicate PlainName(column: string) {
    Plain(Condition(column, "=", Number(0)))
  }

  // One condition at a time, for a column whose name has already been looked at.
  lemma AndPlain(conditions: seq<Condition>, more: seq<Condition>)
    requires AllPlain(conditions) && AllPlain(more)
    ensures AllPlain(conditions + more)
  {
  }

  lemma TextPlain(column: string, wanted: Option<string>)
    requires PlainName(column)
    ensures AllPlain(TextCondition(column, wanted))
  {
  }

  lemma BoundPlain(column: string, op: string, bound: Option<int>)
    requires PlainName(column) && op in {">=", "<="}
    ensures AllPlain(BoundCondition(column, op, bound))
  {
  }

  lemma AndTextMeaning(row: Row, conditions: seq<Condition>, column: string, wanted: Option<string>)
    ensures SatisfiesAll(row, conditions + TextCondition(column, wanted)) <==>
            SatisfiesAll(row, conditions) && Equals(row, column, wanted)
  {
    if wanted.None? {
      assert conditions + [] == conditions;
    } else {
      SatisfiesSnoc(row, conditions, Condition(column, "=", Text(wanted.value)));
    }
  }

  lemma AndBoundMeaning(row: Row, conditions: seq<Condition>, column: string, op: string, bound: Option<int>)
    requires op == ">=" || op == "<="
    ensures SatisfiesAll(row, conditions + BoundCondition(column, op, bound)) <==>
            SatisfiesAll(row, conditions) && (if op == ">=" then From(row, column, bound) else UpTo(row, column, bound))
  {
    if bound.None? {
      assert conditions + [] == conditions;
    } else {
      SatisfiesSnoc(row, conditions, Condition(column, op, Number(bound.value)));
    }
  }

  // ---------- ListReports ----------

  datatype ReportFilter = ReportFilter(status: Option<string>, targetType: Option<string>, assignee: Option<string>,
                                       priority: Option<int>, limit: int, offset: int)

  predicate ReportMatches(f: ReportFilter, row: Row) {
    && Equals(row, "mr.status", f.status)
    && Equals(row, "mr.target_type", f.targetType)
    && Equals(row, "mr.assignee_id", f.assignee)
    && From(row, "mr.priority", f.priority)
  }

  function ReportConditions(f: ReportFilter): seq<Condition> {
    TextCondition("mr.status", f.status) + TextCondition("mr.target_type", f.targetType)
    + TextCondition("mr.assignee_id", f.assignee) + BoundCondition("mr.priority", ">=", f.priority)
  }

  lemma ReportMeaning(f: ReportFilter, row: Row)
    ensures SatisfiesAll(row, ReportConditions(f)) <==> ReportMatches(f, row)
  {
    var c1 := TextCondition("mr.status", f.status);
    var c2 := c1 + TextCondition("mr.target_type", f.targetType);
    var c3 := c2 + TextCondition("mr.assignee_id", f.assignee);
    assert [] + c1 == c1;
    AndTextMeaning(row, [], "mr.status", f.status);
    AndTextMeaning(row, c1, "mr.target_type", f.targetType);
    AndTextMeaning(row, c2, "mr.assignee_id", f.assignee);
    AndBoundMeaning(row, c3, "mr.priority", ">=", f.priority);
  }

  method ListReportsWhere(f: ReportFilter)
    returns (where: string, countArgs: seq<Datum>, page: string, pageArgs: seq<Datum>)
    ensures where == WhereText(ReportConditions(f)) && countArgs == Values(ReportConditions(f))
    ensures pageArgs == countArgs + [Number(PageLimit(f.limit)), Number(f.offset)]
    ensures Pages(page, pageArgs, PageLimit(f.limit), f.offset)
  {
    var limit := f.limit;
    if limit <= 0 || limit > 100 { limit := 50; }
    ghost var c1 := TextCondition("mr.status", f.status);
    ghost var c2 := c1 + TextCondition("mr.target_type", f.targetType);
    ghost var c3 := c2 + TextCondition("mr.assignee_id", f.assignee);
    var args: seq<Datum> := [];
    var i;
    where, args, i := AndText("1=1", [], 1, "mr.status", f.status, []);
    assert [] + c1 == c1;
    where, args, i := AndText(where, args, i, "mr.target_type", f.targetType, c1);
    where, args, i := AndText(where, args, i, "mr.assignee_id", f.assignee, c2);
    where, args, i := AndBound(where, args, i, "mr.priority", ">=", f.priority, c3);
    countArgs := args;
    page, pageArgs := PageText(args, i, limit, f.offset);
  }

  lemma ReportStatusPlain(f: ReportFilter)
    ensures AllPlain(TextCondition("mr.status", f.status))
  {
    TextPlain("mr.status", f.status);
  }

  lemma ReportTypePlain(f: ReportFilter)
    ensures AllPlain(TextCondition("mr.target_type", f.targetType))
  {
    TextPlain("mr.target_type", f.targetType);
  }

  lemma ReportAssigneePlain(f: ReportFilter)
    ensures AllPlain(TextCondition("mr.assignee_id", f.assignee))
  {
    TextPlain("mr.assignee_id", f.assignee);
  }

  lemma ReportPriorityPlain(f: ReportFilter)
    ensures AllPlain(BoundCondition("mr.priority", ">=", f.priority))
  {
    BoundPlain("mr.priority", ">=", f.priority);
  }

  lemma ReportPlain(f: ReportFilter)
    ensures AllPlain(ReportConditions(f))
  {
    ReportStatusPlain(f);
    ReportTypePlain(f);
    ReportAssigneePlain(f);
    ReportPriorityPlain(f);
    var c1 := TextCondition("mr.status", f.status);
    AndPlain(c1, TextCondition("mr.target_type", f.targetType));
    var c2 := c1 + TextCondition("mr.target_type", f.targetType);
    AndPlain(c2, TextCondition("mr.assignee_id", f.assignee));
    var c3 := c2 + TextCondition("mr.assignee_id", f.assignee);
    AndPlain(c3, BoundCondition("mr.priority", ">=", f.priority));
  }

  /** The text and arguments of ListReports select exactly the rows its filter asks for, for the count
      and for the page alike. */
  lemma ReportsListed(f: ReportFilter, more: seq<Datum>, row: Row)
    ensures Holds(Words(WhereText(ReportConditions(f))), Values(ReportConditions(f)) + more, row) <==> ReportMatches(f, row)
  {
    ReportPlain(f);
    WhereMeaning(ReportConditions(f), more, row);
    ReportMeaning(f, row);
  }

  // ---------- ListActions ----------

  datatype ActionFilter = ActionFilter(targetType: Option<string>, targetId: Option<string>, actor: Option<string>,
                                       limit: int, offset: int)

  predicate ActionMatches(f: ActionFilter, row: Row) {
    && Equals(row, "ma.target_type", f.targetType)
    && Equals(row, "ma.target_id", f.targetId)
    && Equals(row, "ma.actor_id", f.actor)
  }

  function ActionConditions(f: ActionFilter): seq<Condition> {
    TextCondition("ma.target_type", f.targetType) + TextCondition("ma.target_id", f.targetId)
    + TextCondition("ma.actor_id", f.actor)
  }

  method ListActionsWhere(f: ActionFilter)
    returns (where: string, countArgs: seq<Datum>, page: string, pageArgs: seq<Datum>)
    ensures where == WhereText(ActionConditions(f)) && countArgs == Values(ActionConditions(f))
    ensures pageArgs == countArgs + [Number(PageLimit(f.limit)), Number(f.offset)]
    ensures Pages(page, pageArgs, PageLimit(f.limit), f.offset)
  {
    var limit := f.limit;
    if limit <= 0 || limit > 100 { limit := 50; }
    ghost var c1 := TextCondition("ma.target_type", f.targetType);
    ghost var c2 := c1 + TextCondition("ma.target_id", f.targetId);
    var i;
    where, countArgs, i := AndText("1=1", [], 1, "ma.target_type", f.targetType, []);
    assert [] + c1 == c1;
    where, countArgs, i := AndText(where, countArgs, i, "ma.target_id", f.targetId, c1);
    where, countArgs, i := AndText(where, countArgs, i, "ma.actor_id", f.actor, c2);
    page, pageArgs := PageText(countArgs, i, limit, f.offset);
  }

  lemma ActionMeaning(f: ActionFilter, row: Row)
    ensures SatisfiesAll(row, ActionConditions(f)) <==> ActionMatches(f, row)
  {
    var c1 := TextCondition("ma.target_type", f.targetType);
    var c2 := c1 + TextCondition("ma.target_id", f.targetId);
    assert [] + c1 == c1;
    AndTextMeaning(row, [], "ma.target_type", f.targetType);
    AndTextMeaning(row, c1, "ma.target_id", f.targetId);
    AndTextMeaning(row, c2, "ma.actor_id", f.actor);
  }

  lemma ActionTypePlain(f: ActionFilter)
    ensures AllPlain(TextCondition("ma.target_type", f.targetType))
  {
    TextPlain("ma.target_type", f.targetType);
  }

  lemma ActionTargetPlain(f: ActionFilter)
    ensures AllPlain(TextCondition("ma.target_id", f.targetId))
  {
    TextPlain("ma.target_id", f.targetId);
  }

  lemma ActionActorPlain(f: ActionFilter)
    ensures AllPlain(TextCondition("ma.actor_id", f.actor))
  {
    TextPlain("ma.actor_id", f.actor);
  }

  lemma ActionPlain(f: ActionFilter)
    ensures AllPlain(ActionConditions(f))
  {
    ActionTypePlain(f);
    ActionTargetPlain(f);
    ActionActorPlain(f);
    var c1 := TextCondition("ma.target_type", f.targetType);
    AndPlain(c1, TextCondition("ma.target_id", f.targetId));
    var c2 := c1 + TextCondition("ma.target_id", f.targetId);
    AndPlain(c2, TextCondition("ma.actor_id", f.actor));
  }

  /** The same for ListActions. */
  lemma ActionsListed(f: ActionFilter, more: seq<Datum>, row: Row)
    ensures Holds(Words(WhereText(ActionConditions(f))), Values(ActionConditions(f)) + more, row) <==> ActionMatches(f, row)
  {
    ActionPlain(f);
    ActionMeaning(f, row);
    WhereMeaning(ActionConditions(f), more, row);
  }

  // ---------- ListAuditLog ----------

  datatype AuditFilter = AuditFilter(actor: Option<string>, action: Option<string>, targetType: Option<string>,
                                     targetId: Option<string>, since: Option<int>, until: Option<int>,
                                     limit: int, offset: int)

  // Both bounds on the time are inclusive.
  predicate AuditMatches(f: AuditFilter, row: Row) {
    && Equals(row, "al.actor_id", f.actor)
    && Equals(row, "al.action", f.action)
    && Equals(row, "al.target_type", f.targetType)
    && Equals(row, "al.target_id", f.targetId)
    && From(row, "al.created_at", f.since)
    && UpTo(row, "al.created_at", f.until)
  }

  function AuditTarget(f: AuditFilter): seq<Condition> {
    TextCondition("al.actor_id", f.actor) + TextCondition("al.action", f.action)
    + TextCondition("al.target_type", f.targetType) + TextCondition("al.target_id", f.targetId)
  }

  function AuditConditions(f: AuditFilter): seq<Condition> {
    AuditTarget(f) + BoundCondition("al.created_at", ">=", f.since) + BoundCondition("al.created_at", "<=", f.until)
  }

  method ListAuditLogWhere(f: AuditFilter)
    returns (where: string, countArgs: seq<Datum>, page: string, pageArgs: seq<Datum>)
    ensures where == WhereText(AuditConditions(f)) && countArgs == Values(AuditConditions(f))
    ensures pageArgs == countArgs + [Number(PageLimit(f.limit)), Number(f.offset)]
    ensures Pages(page, pageArgs, PageLimit(f.limit), f.offset)
  {
    var limit := f.limit;
    if limit <= 0 || limit > 100 { limit := 50; }
    ghost var c1 := TextCondition("al.actor_id", f.actor);
    ghost var c2 := c1 + TextCondition("al.action", f.action);
    ghost var c3 := c2 + TextCondition("al.target_type", f.targetType);
    ghost var c4 := AuditTarget(f);
    ghost var c5 := c4 + BoundCondition("al.created_at", ">=", f.since);
    var i;
    where, countArgs, i := AndText("1=1", [], 1, "al.actor_id", f.actor, []);
    assert [] + c1 == c1;
    where, countArgs, i := AndText(where, countArgs, i, "al.action", f.action, c1);
    where, countArgs, i := AndText(where, countArgs, i, "al.target_type", f.targetType, c2);
    where, countArgs, i := AndText(where, countArgs, i, "al.target_id", f.targetId, c3);
    where, countArgs, i := AndBound(where, countArgs, i, "al.created_at", ">=", f.since, c4);
    where, countArgs, i := AndBound(where, countArgs, i, "al.created_at", "<=", f.until, c5);
    page, pageArgs := PageText(countArgs, i, limit, f.offset);
  }

  lemma AuditTargetMeaning(f: AuditFilter, row: Row)
    ensures SatisfiesAll(row, AuditTarget(f)) <==>
            && Equals(row, "al.actor_id", f.actor) && Equals(row, "al.action", f.action)
            && Equals(row, "al.target_type", f.targetType) && Equals(row, "al.target_id", f.targetId)
  {
    var c1 := TextCondition("al.actor_id", f.actor);
    var c2 := c1 + TextCondition("al.action", f.action);
    var c3 := c2 + TextCondition("al.target_type", f.targetType);
    assert [] + c1 == c1;
    AndTextMeaning(row, [], "al.actor_id", f.actor);
    AndTextMeaning(row, c1, "al.action", f.action);
    AndTextMeaning(row, c2, "al.target_type", f.targetType);
    AndTextMeaning(row, c3, "al.target_id", f.targetId);
  }

  lemma AuditMeaning(f: AuditFilter, row: Row)
    ensures SatisfiesAll(row, AuditConditions(f)) <==> AuditMatches(f, row)
  {
    var c4 := AuditTarget(f);
    var c5 := c4 + BoundCondition("al.created_at", ">=", f.since);
    AuditTargetMeaning(f, row);
    AndBoundMeaning(row, c4, "al.created_at", ">=", f.since);
    AndBoundMeaning(row, c5, "al.created_at", "<=", f.until);
  }

  lemma AuditActorPlain(f: AuditFilter)
    ensures AllPlain(TextCondition("al.actor_id", f.actor))
  {
    TextPlain("al.actor_id", f.actor);
  }

  lemma AuditActionPlain(f: AuditFilter)
    ensures AllPlain(TextCondition("al.action", f.action))
  {
    TextPlain("al.action", f.action);
  }

  lemma AuditTypePlain(f: AuditFilter)
    ensures AllPlain(TextCondition("al.target_type", f.targetType))
  {
    TextPlain("al.target_type", f.targetType);
  }

  lemma AuditTargetIdPlain(f: AuditFilter)
    ensures AllPlain(TextCondition("al.target_id", f.targetId))
  {
    TextPlain("al.target_id", f.targetId);
  }

  lemma AuditSincePlain(f: AuditFilter)
    ensures AllPlain(BoundCondition("al.created_at", ">=", f.since))
  {
    BoundPlain("al.created_at", ">=", f.since);
  }

  lemma AuditUntilPlain(f: AuditFilter)
    ensures AllPlain(BoundCondition("al.created_at", "<=", f.until))
  {
    BoundPlain("al.created_at", "<=", f.until);
  }

  lemma AuditPlain(f: AuditFilter)
    ensures AllPlain(AuditConditions(f))
  {
    AuditActorPlain(f);
    AuditActionPlain(f);
    AuditTypePlain(f);
    AuditTargetIdPlain(f);
    AuditSincePlain(f);
    AuditUntilPlain(f);
    var c1 := TextCondition("al.actor_id", f.actor);
    AndPlain(c1, TextCondition("al.action", f.action));
    var c2 := c1 + TextCondition("al.action", f.action);
    AndPlain(c2, TextCondition("al.target_type", f.targetType));
    var c3 := c2 + TextCondition("al.target_type", f.targetType);
    AndPlain(c3, TextCondition("al.target_id", f.targetId));
    var c4 := c3 + TextCondition("al.target_id", f.targetId);
    AndPlain(c4, BoundCondition("al.created_at", ">=", f.since));
    var c5 := c4 + BoundCondition("al.created_at", ">=", f.since);
    AndPlain(c5, BoundCondition("al.created_at", "<=", f.until));
  }

  /** The same for ListAuditLog. */
  lemma AuditLogListed(f: AuditFilter, more: seq<Datum>, row: Row)
    ensures Holds(Words(WhereText(AuditConditions(f))), Values(AuditConditions(f)) + more, row) <==> AuditMatches(f, row)
  {
    AuditPlain(f);
    AuditMeaning(f, row);
    WhereMeaning(AuditConditions(f), more, row);
  }
}
