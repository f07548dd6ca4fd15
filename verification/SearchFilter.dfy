/** The WHERE clause and arguments that Search builds (packages/search/postgres.go). The SELECT text
    around them is not part of this model. */
module SearchFilter {
  import opened Options
  import opened Decimal
  import opened SqlText

  /** A query; the text is already trimmed, an empty string means no filter. */
  datatype Query = Query(text: string, duration: string, uploadDate: string, mediaType: string, owner: string)

  // What the clock makes of "today", "week", "month" and "year".
  datatype Cutoffs = Cutoffs(today: int, week: int, month: int, year: int)

  function Bounds(duration: string): (int, int) {
    match duration
    case "short" => (0, 4 * 60 - 1)
    case "medium" => (4 * 60, 20 * 60 - 1)
    case "long" => (20 * 60, 0)
    case _ => (0, 0)
  }

  function Cutoff(uploadDate: string, c: Cutoffs): Option<int> {
    match uploadDate
    case "today" => Some(c.today)
    case "week" => Some(c.week)
    case "month" => Some(c.month)
    case "year" => Some(c.year)
    case _ => None
  }

  // ---------- What a search asks for ----------

  predicate DurationMatches(duration: string, row: Row) {
    match duration
    case "short" => AtMost(row, "v.duration_seconds", 239)
    case "medium" => AtLeast(row, "v.duration_seconds", 240) && AtMost(row, "v.duration_seconds", 1199)
    case "long" => AtLeast(row, "v.duration_seconds", 1200)
    case _ => true
  }

  predicate UploadDateMatches(uploadDate: string, c: Cutoffs, row: Row) {
    match uploadDate
    case "today" => AtLeast(row, "v.published_at", c.today)
    case "week" => AtLeast(row, "v.published_at", c.week)
    case "month" => AtLeast(row, "v.published_at", c.month)
    case "year" => AtLeast(row, "v.published_at", c.year)
    case _ => true
  }

  predicate FiltersMatch(q: Query, c: Cutoffs, row: Row) {
    && DurationMatches(q.duration, row)
    && UploadDateMatches(q.uploadDate, c, row)
    && (q.mediaType != "" ==> Column(row, "sd.media_type") == Some(Text(q.mediaType)))
    && (q.owner != "" ==> Column(row, "v.owner_id") == Some(Text(q.owner)))
  }

  predicate Published(row: Row) {
    && Column(row, "v.visibility") == Some(Text("public"))
    && Column(row, "v.status") == Some(Text("ready"))
    && Column(row, "v.deleted_at").None?
  }

  /** The search as meant: a published video that matches the text, if any, and every filter. */
  ghost predicate Intended(q: Query, c: Cutoffs, row: Row) {
    (q.text == "" || q.text in row.matched) && FiltersMatch(q, c, row) && Published(row)
  }

  /** The search as written. */
  ghost predicate Written(q: Query, c: Cutoffs, row: Row) {
    q.text == "" || (q.text in row.matched && FiltersMatch(q, c, row) && Published(row))
  }

  // ---------- The clauses ----------

  function Minimum(duration: string): seq<Condition> {
    var min := Bounds(duration).0;
    if min > 0 then [Condition("v.duration_seconds", ">=", Number(min))] else []
  }

  function Maximum(duration: string): seq<Condition> {
    var max := Bounds(duration).1;
    if max > 0 then [Condition("v.duration_seconds", "<=", Number(max))] else []
  }

  function Since(uploadDate: string, c: Cutoffs): seq<Condition> {
    match Cutoff(uploadDate, c)
    case None => []
    case Some(t) => [Condition("v.published_at", ">=", Number(t))]
  }

  function Exactly(column: string, wanted: string): seq<Condition> {
    if wanted == "" then [] else [Condition(column, "=", Text(wanted))]
  }

  function Conditions(q: Query, c: Cutoffs): seq<Condition> {
    Minimum(q.duration) + Maximum(q.duration) + Since(q.uploadDate, c)
    + Exactly("sd.media_type", q.mediaType) + Exactly("v.owner_id", q.owner)
  }

  const NO_TEXT := "$1 = ''"
  const MATCHES_TEXT := "sd.search_vector @@ " + "websearch_to_tsquery('english', $1)"
  const FIRST_CLAUSE := NO_TEXT + " OR " + MATCHES_TEXT
  const LAST_CLAUSES := ["v.visibility = 'public'", "v.status = 'ready'", "v.deleted_at IS NULL"]

  function ConditionClause(c: Condition, n: nat): string {
    c.column + " " + c.op + " $" + Print(n)
  }

  /** The clauses written for a list of conditions; the search text is argument 1. */
  function Clauses(conditions: seq<Condition>): (clauses: seq<string>)
    ensures |clauses| == |conditions| + 1
  {
    var n := |conditions|;
    if n == 0 then [FIRST_CLAUSE] else Clauses(conditions[..n - 1]) + [ConditionClause(conditions[n - 1], n + 1)]
  }

  // strings.Join
  function JoinClauses(parts: seq<string>, sep: string): string
    requires |parts| >= 1
  {
    var n := |parts|;
    if n == 1 then parts[0] else JoinClauses(parts[..n - 1], sep) + sep + parts[n - 1]
  }

  function SearchText(q: Query, c: Cutoffs): string {
    JoinClauses(Clauses(Conditions(q, c)) + LAST_CLAUSES, " AND\n")
  }

  function SearchArgs(q: Query, c: Cutoffs): seq<Datum> {
    [Text(q.text)] + Values(Conditions(q, c))
  }

  // ---------- Search ----------

  ghost predicate Built(clauses: seq<string>, args: seq<Datum>, text: string, conditions: seq<Condition>) {
    clauses == Clauses(conditions) && args == [Text(text)] + Values(conditions)
  }

  // What each filter that is set does.
  method AddClause(clauses: seq<string>, args: seq<Datum>, column: string, op: string, value: Datum,
                   ghost text: string, ghost conditions: seq<Condition>)
    returns (clauses': seq<string>, args': seq<Datum>)
    requires Built(clauses, args, text, conditions)
    ensures Built(clauses', args', text, conditions + [Condition(column, op, value)])
  {
    assert (conditions + [Condition(column, op, value)])[..|conditions|] == conditions;
    clauses' := clauses + [column + " " + op + " $" + Print(|args| + 1)];
    args' := args + [value];
  }

  method AddDuration(clauses: seq<string>, args: seq<Datum>, q: Query)
    returns (clauses': seq<string>, args': seq<Datum>)
    requires Built(clauses, args, q.text, [])
    ensures Built(clauses', args', q.text, Minimum(q.duration) + Maximum(q.duration))
  {
    clauses', args' := clauses, args;
    if q.duration != "" {
      var (min, max) := Bounds(q.duration);
      if min > 0 {
        clauses', args' := AddClause(clauses', args', "v.duration_seconds", ">=", Number(min), q.text, []);
        assert [] + Minimum(q.duration) == Minimum(q.duration);
      }
      if max > 0 {
        clauses', args' := AddClause(clauses', args', "v.duration_seconds", "<=", Number(max), q.text, Minimum(q.duration));
      }
    }
    assert Minimum(q.duration) + [] == Minimum(q.duration);
  }

  method AddText(clauses: seq<string>, args: seq<Datum>, column: string, wanted: string,
                 ghost text: string, ghost conditions: seq<Condition>)
    returns (clauses': seq<string>, args': seq<Datum>)
    requires Built(clauses, args, text, conditions)
    ensures Built(clauses', args', text, conditions + Exactly(column, wanted))
  {
    clauses', args' := clauses, args;
    assert conditions + [] == conditions;
    if wanted != "" {
      clauses', args' := AddClause(clauses, args, column, "=", Text(wanted), text, conditions);
    }
  }

  /** None is the error about an unknown upload date. */
  method Search(q: Query, c: Cutoffs) returns (r: Option<(string, seq<Datum>)>)
    ensures r.None? <==> q.uploadDate !in {"", "today", "week", "month", "year"}
    ensures r.Some? ==> r.value == (SearchText(q, c), SearchArgs(q, c))
  {
    var clauses, args := [FIRST_CLAUSE], [Text(q.text)];
    ghost var conditions := Minimum(q.duration) + Maximum(q.duration);
    clauses, args := AddDuration(clauses, args, q);
    assert conditions + [] == conditions;
    if q.uploadDate != "" {
      var cutoff := Cutoff(q.uploadDate, c);
      if cutoff == None {
        return None;
      }
      clauses, args := AddClause(clauses, args, "v.published_at", ">=", Number(cutoff.value), q.text, conditions);
    }
    conditions := conditions + Since(q.uploadDate, c);
    clauses, args := AddText(clauses, args, "sd.media_type", q.mediaType, q.text, conditions);
    conditions := conditions + Exactly("sd.media_type", q.mediaType);
    clauses, args := AddText(clauses, args, "v.owner_id", q.owner, q.text, conditions);
    clauses := clauses + ["v.visibility = 'public'", "v.status = 'ready'", "v.deleted_at IS NULL"];
    r := Some((JoinClauses(clauses, " AND\n"), args));
  }

  // ---------- What the text means ----------

  const EMPTY_TEXT := ["$1", "=", "''"]
  const MATCH := ["sd.search_vector", "@@", "websearch_to_tsquery('english',", "$1)"]

  lemma NoTextWords()
    ensures Words(NO_TEXT) == EMPTY_TEXT
  {
    WordsThree("$1", "=", "''");
    assert NO_TEXT == "$1" + (" " + ("=" + (" " + "''")));
  }

  lemma MatchesTextWords()
    ensures Words(MATCHES_TEXT) == MATCH
  {
    var name, argument := "websearch_to_tsquery('english',", "$1)";
    assert "websearch_to_tsquery('english', $1)" == name + (" " + argument);
    WordsThree("@@", name, argument);
    WordsOne("sd.search_vector");
    WordsConcat("sd.search_vector", " ", "@@" + (" " + (name + (" " + argument))));
    assert "sd.search_vector @@ " == "sd.search_vector" + " " + "@@" + " ";
    Regroup("sd.search_vector", " ", "@@", " ", name + (" " + argument));
  }

  lemma Regroup(v: string, w: string, x: string, y: string, z: string)
    ensures v + w + x + y + z == v + (w + (x + (y + z)))
  {
  }

  lemma FirstClauseWords()
    ensures Words(FIRST_CLAUSE) == EMPTY_TEXT + ["OR"] + MATCH
  {
    NoTextWords();
    MatchesTextWords();
    OrWords(NO_TEXT, MATCHES_TEXT);
    OrText(NO_TEXT, MATCHES_TEXT);
  }

  lemma OrText(left: string, right: string)
    ensures left + " OR " + right == left + (" " + ("OR" + (" " + right)))
  {
  }

  lemma OrWords(left: string, right: string)
    ensures Words(left + (" " + ("OR" + (" " + right)))) == Words(left) + ["OR"] + Words(right)
  {
    WordsOne("OR");
    WordsConcat("OR", " ", right);
    WordsConcat(left, " ", "OR" + (" " + right));
  }

  lemma AndText(left: string, right: string)
    ensures left + " AND\n" + right == left + (" " + ("AND" + ("\n" + right)))
  {
  }

  lemma AndWords(left: string, right: string)
    ensures Words(left + " AND\n" + right) == Words(left) + ["AND"] + Words(right)
  {
    WordsOne("AND");
    WordsConcat("AND", "\n", right);
    WordsConcat(left, " ", "AND" + ("\n" + right));
    AndText(left, right);
  }

  lemma JoinWords(parts: seq<string>, part: string)
    requires |parts| >= 1
    ensures Words(JoinClauses(parts + [part], " AND\n")) == Words(JoinClauses(parts, " AND\n")) + ["AND"] + Words(part)
  {
    assert (parts + [part])[..|parts|] == parts;
    AndWords(JoinClauses(parts, " AND\n"), part);
  }

  lemma ConditionClauseWords(c: Condition, n: nat)
    requires Plain(c) && n >= 1
    ensures Words(ConditionClause(c, n)) == ConditionWords(c, n)
  {
    assert Word(c.op) && Word(Placeholder(n)) by { PlaceholderResolves(n, seq(n, _ => Number(0)), Row(map[], iset{})); }
    WordsThree(c.column, c.op, Placeholder(n));
    assert ConditionClause(c, n) == c.column + (" " + (c.op + (" " + Placeholder(n))));
  }

  lemma {:induction false} ClausesWords(conditions: seq<Condition>)
    requires AllPlain(conditions)
    ensures Words(JoinClauses(Clauses(conditions), " AND\n")) == EMPTY_TEXT + ["OR"] + Conjoined(MATCH, 1, conditions)
  {
    var n := |conditions|;
    if n == 0 {
      FirstClauseWords();
    } else {
      var before, last := conditions[..n - 1], conditions[n - 1];
      ClausesWords(before);
      JoinWords(Clauses(before), ConditionClause(last, n + 1));
      ConditionClauseWords(last, n + 1);
    }
  }

  const VISIBLE := ["v.visibility", "=", "'public'"]
  const READY := ["v.status", "=", "'ready'"]
  const UNDELETED := ["v.deleted_at", "IS", "NULL"]

  lemma LastClausesWords()
    ensures Words(LAST_CLAUSES[0]) == VISIBLE && Words(LAST_CLAUSES[1]) == READY && Words(LAST_CLAUSES[2]) == UNDELETED
  {
    WordsThree("v.visibility", "=", "'public'");
    WordsThree("v.status", "=", "'ready'");
    WordsThree("v.deleted_at", "IS", "NULL");
    assert LAST_CLAUSES[0] == "v.visibility" + (" " + ("=" + (" " + "'public'")));
    assert LAST_CLAUSES[1] == "v.status" + (" " + ("=" + (" " + "'ready'")));
    assert LAST_CLAUSES[2] == "v.deleted_at" + (" " + ("IS" + (" " + "NULL")));
  }

  // The part of the text after OR.
  function Rest(conditions: seq<Condition>): seq<string> {
    Conjoined(MATCH, 1, conditions) + ["AND"] + VISIBLE + ["AND"] + READY + ["AND"] + UNDELETED
  }

  lemma AllClausesWords(conditions: seq<Condition>)
    requires AllPlain(conditions)
    ensures Words(JoinClauses(Clauses(conditions) + LAST_CLAUSES, " AND\n")) == EMPTY_TEXT + ["OR"] + Rest(conditions)
  {
    ClausesWords(conditions);
    LastClausesWords();
    var c0 := Clauses(conditions);
    var c1 := c0 + [LAST_CLAUSES[0]];
    var c2 := c1 + [LAST_CLAUSES[1]];
    JoinWords(c0, LAST_CLAUSES[0]);
    JoinWords(c1, LAST_CLAUSES[1]);
    JoinWords(c2, LAST_CLAUSES[2]);
    assert c2 + [LAST_CLAUSES[2]] == c0 + LAST_CLAUSES;
    Regroup6(EMPTY_TEXT + ["OR"], Conjoined(MATCH, 1, conditions), VISIBLE, READY, UNDELETED);
  }

  lemma Regroup6(v: seq<string>, w: seq<string>, x: seq<string>, y: seq<string>, z: seq<string>)
    ensures v + w + ["AND"] + x + ["AND"] + y + ["AND"] + z == v + (w + ["AND"] + x + ["AND"] + y + ["AND"] + z)
  {
  }

  lemma LastClausesMeaning(args: seq<Datum>, row: Row)
    ensures AllHold(VISIBLE, args, row) && AllHold(READY, args, row) && AllHold(UNDELETED, args, row) <==> Published(row)
  {
    FindWithin(VISIBLE, "AND", []);
    FindWithin(READY, "AND", []);
    FindWithin(UNDELETED, "AND", []);
    assert "'public'"[1..7] == "public" && "'ready'"[1..6] == "ready";
  }

  lemma FirstClauseMeaning(text: string, args: seq<Datum>, row: Row)
    requires |args| >= 1 && args[0] == Text(text)
    ensures AllHold(EMPTY_TEXT, args, row) <==> text == ""
    ensures AllHold(MATCH, args, row) <==> text in row.matched
  {
    FindWithin(EMPTY_TEXT, "AND", []);
    FindWithin(MATCH, "AND", []);
    PlaceholderResolves(1, args, row);
    assert Placeholder(1) == "$1";
    assert "$1)"[..2] == "$1" && "''"[1..1] == "";
  }

  lemma RestMeaning(conditions: seq<Condition>, args: seq<Datum>, row: Row)
    ensures AllHold(Rest(conditions), args, row) <==> AllHold(Conjoined(MATCH, 1, conditions), args, row) && Published(row)
  {
    var c := Conjoined(MATCH, 1, conditions);
    AllHoldAnd(c, VISIBLE, args, row);
    AllHoldAnd(c + ["AND"] + VISIBLE, READY, args, row);
    AllHoldAnd(c + ["AND"] + VISIBLE + ["AND"] + READY, UNDELETED, args, row);
    LastClausesMeaning(args, row);
  }

  lemma SearchParts(text: string, conditions: seq<Condition>, args: seq<Datum>, row: Row)
    requires AllPlain(conditions) && [Text(text)] + Values(conditions) <= args
    ensures Holds(EMPTY_TEXT + ["OR"] + Rest(conditions), args, row) <==>
            text == "" || (text in row.matched && SatisfiesAll(row, conditions) && Published(row))
  {
    assert args[0] == ([Text(text)] + Values(conditions))[0];
    FirstClauseMeaning(text, args, row);
    ConjoinedMeaning(MATCH, [Text(text)], conditions, args, row);
    RestMeaning(conditions, args, row);
    HoldsOr(EMPTY_TEXT, Rest(conditions), args, row);
  }

  // ---------- The conditions are the filters ----------

  lemma OneCondition(row: Row, c: Condition)
    ensures SatisfiesAll(row, [c]) <==> Satisfies(row, c)
  {
    assert [] + [c] == [c];
    SatisfiesSnoc(row, [], c);
  }

  lemma SatisfiesConcat(row: Row, x: seq<Condition>, y: seq<Condition>)
    ensures SatisfiesAll(row, x + y) <==> SatisfiesAll(row, x) && SatisfiesAll(row, y)
  {
    if SatisfiesAll(row, x + y) {
      forall c | c in x ensures Satisfies(row, c) { assert c in x + y; }
      forall c | c in y ensures Satisfies(row, c) { assert c in x + y; }
    }
  }

  lemma DurationMeaning(duration: string, row: Row)
    ensures SatisfiesAll(row, Minimum(duration)) && SatisfiesAll(row, Maximum(duration)) <==> DurationMatches(duration, row)
  {
    OneCondition(row, Condition("v.duration_seconds", ">=", Number(Bounds(duration).0)));
    OneCondition(row, Condition("v.duration_seconds", "<=", Number(Bounds(duration).1)));
  }

  lemma SinceMeaning(uploadDate: string, c: Cutoffs, row: Row)
    ensures SatisfiesAll(row, Since(uploadDate, c)) <==> UploadDateMatches(uploadDate, c, row)
  {
    if Cutoff(uploadDate, c).Some? {
      OneCondition(row, Condition("v.published_at", ">=", Number(Cutoff(uploadDate, c).value)));
    }
  }

  lemma ExactlyMeaning(column: string, wanted: string, row: Row)
    ensures SatisfiesAll(row, Exactly(column, wanted)) <==> (wanted != "" ==> Column(row, column) == Some(Text(wanted)))
  {
    OneCondition(row, Condition(column, "=", Text(wanted)));
  }

  lemma ConditionsMeaning(q: Query, c: Cutoffs, row: Row)
    ensures SatisfiesAll(row, Conditions(q, c)) <==> FiltersMatch(q, c, row)
  {
    var x1 := Minimum(q.duration);
    var x2 := x1 + Maximum(q.duration);
    var x3 := x2 + Since(q.uploadDate, c);
    var x4 := x3 + Exactly("sd.media_type", q.mediaType);
    SatisfiesConcat(row, x1, Maximum(q.duration));
    SatisfiesConcat(row, x2, Since(q.uploadDate, c));
    SatisfiesConcat(row, x3, Exactly("sd.media_type", q.mediaType));
    SatisfiesConcat(row, x4, Exactly("v.owner_id", q.owner));
    DurationMeaning(q.duration, row);
    SinceMeaning(q.uploadDate, c, row);
    ExactlyMeaning("sd.media_type", q.mediaType, row);
    ExactlyMeaning("v.owner_id", q.owner, row);
  }

  lemma ConditionsPlain(q: Query, c: Cutoffs)
    ensures AllPlain(Conditions(q, c))
  {
    assert AllPlain(Minimum(q.duration)) && AllPlain(Maximum(q.duration));
    assert AllPlain(Since(q.uploadDate, c));
    assert AllPlain(Exactly("sd.media_type", q.mediaType));
    assert AllPlain(Exactly("v.owner_id", q.owner));
  }

  /** The text that Search builds, read with AND binding tighter than OR, is: the search text is empty,
      or it matches and every filter holds. The same holds for the longer argument list of the page
      query and for the count query. */
  lemma SearchMeaning(q: Query, c: Cutoffs, more: seq<Datum>, row: Row)
    ensures Holds(Words(SearchText(q, c)), SearchArgs(q, c) + more, row) <==> Written(q, c, row)
  {
    ConditionsPlain(q, c);
    AllClausesWords(Conditions(q, c));
    SearchParts(q.text, Conditions(q, c), SearchArgs(q, c) + more, row);
    ConditionsMeaning(q, c, row);
  }

  // The built query selects the row exactly if the search is meant to.
  ghost predicate Means(q: Query, c: Cutoffs, row: Row) {
    Holds(Words(SearchText(q, c)), SearchArgs(q, c), row) <==> Intended(q, c, row)
  }

  lemma WithText(q: Query, c: Cutoffs, row: Row)
    requires q.text != ""
    ensures Means(q, c, row)
  {
    assert SearchArgs(q, c) + [] == SearchArgs(q, c);
    SearchMeaning(q, c, [], row);
  }

  lemma UnintendedRow(q: Query, c: Cutoffs)
    requires q.text == ""
    ensures var row := Row(map["v.visibility" := Text("private")], iset{});
            Holds(Words(SearchText(q, c)), SearchArgs(q, c), row) && !Intended(q, c, row)
  {
    var row := Row(map["v.visibility" := Text("private")], iset{});
    assert SearchArgs(q, c) + [] == SearchArgs(q, c);
    SearchMeaning(q, c, [], row);
    assert "private"[1] != "public"[1];
  }

  /** So a search means what it should exactly when it has a text: without one, every video is found,
      private, unready and deleted ones included, and no filter has any effect. */
  lemma MeansIntendedIff(q: Query, c: Cutoffs)
    ensures (forall row :: Means(q, c, row)) <==> q.text != ""
  {
    if q.text == "" {
      UnintendedRow(q, c);
      assert !Means(q, c, Row(map["v.visibility" := Text("private")], iset{}));
    } else {
      forall row ensures Means(q, c, row) { WithText(q, c, row); }
    }
  }
}
