/** What a WHERE clause made of comparisons, AND and OR means, for text with positional parameters.
    The text is read as PostgreSQL reads it: AND binds tighter than OR, $n is the n-th argument, a
    comparison with NULL does not hold. */
module SqlText {
  import opened Options
  import opened Decimal

  datatype Datum = Text(text: string) | Number(number: int)

  /** A joined row: its non-NULL columns, and the search texts its search_vector matches. */
  datatype Row = Row(columns: map<string, Datum>, matched: iset<string>)

  function Column(row: Row, name: string): Option<Datum> {
    if name in row.columns then Some(row.columns[name]) else None
  }

  predicate AtLeast(row: Row, column: string, bound: int) {
    match Column(row, column) case Some(Number(n)) => n >= bound case _ => false
  }

  predicate AtMost(row: Row, column: string, bound: int) {
    match Column(row, column) case Some(Number(n)) => n <= bound case _ => false
  }

  // ---------- Words of a text ----------

  predicate Space(c: char) {
    c == ' ' || c == '\n'
  }

  predicate Word(w: string) {
    w != "" && forall i :: 0 <= i < |w| ==> !Space(w[i])
  }

  datatype Lexed = Lexed(words: seq<string>, partial: string)

  function Lex(s: string): Lexed {
    if s == "" then Lexed([], "") else
    var before := Lex(s[..|s| - 1]);
    var c := s[|s| - 1];
    if !Space(c) then Lexed(before.words, before.partial + [c])
    else if before.partial == "" then before
    else Lexed(before.words + [before.partial], "")
  }

  function Finish(l: Lexed): seq<string> {
    if l.partial == "" then l.words else l.words + [l.partial]
  }

  function Words(s: string): seq<string> {
    Finish(Lex(s))
  }

  lemma {:induction false} LexWord(w: string)
    requires forall i :: 0 <= i < |w| ==> !Space(w[i])
    ensures Lex(w) == Lexed([], w)
  {
    if w != "" {
      LexWord(w[..|w| - 1]);
      assert w[..|w| - 1] + [w[|w| - 1]] == w;
    }
  }

  lemma WordsOne(w: string)
    requires Word(w)
    ensures Words(w) == [w]
  {
    LexWord(w);
  }

  lemma {:induction false} LexConcat(x: string, sep: string, y: string)
    requires |sep| == 1 && Space(sep[0])
    ensures Lex(x + (sep + y)) == Lexed(Words(x) + Lex(y).words, Lex(y).partial)
  {
    var whole := x + (sep + y);
    if y == "" {
      assert whole[..|whole| - 1] == x;
    } else {
      var c := y[|y| - 1];
      assert whole[..|whole| - 1] == x + (sep + y[..|y| - 1]);
      LexConcat(x, sep, y[..|y| - 1]);
    }
  }

  /** Texts put side by side with a space or a newline between them have their words side by side. */
  lemma WordsConcat(x: string, sep: string, y: string)
    requires |sep| == 1 && Space(sep[0])
    ensures Words(x + (sep + y)) == Words(x) + Words(y)
  {
    LexConcat(x, sep, y);
  }

  // Text, a space, and three words.
  lemma WordsThree(a: string, b: string, c: string)
    requires Word(a) && Word(b) && Word(c)
    ensures Words(a + (" " + (b + (" " + c)))) == [a, b, c]
  {
    WordsOne(a);
    WordsOne(b);
    WordsOne(c);
    WordsConcat(b, " ", c);
    WordsConcat(a, " ", b + (" " + c));
  }

  // ---------- Meaning ----------

  /** The value a word stands for: an argument, a quoted literal, or a column. */
  ghost function Operand(w: string, args: seq<Datum>, row: Row): Option<Datum> {
    if |w| >= 2 && w[0] == '$' then
      if Digits(w[1..]) && 1 <= Value(w[1..]) <= |args| then Some(args[Value(w[1..]) - 1]) else None
    else if |w| >= 2 && w[0] == '\'' && w[|w| - 1] == '\'' then Some(Text(w[1..|w| - 1]))
    else Column(row, w)
  }

  predicate Compares(left: Option<Datum>, op: string, right: Option<Datum>) {
    match (left, right)
    case (Some(l), Some(r)) =>
      || (op == "=" && l == r)
      || (op == ">=" && l.Number? && r.Number? && l.number >= r.number)
      || (op == "<=" && l.Number? && r.Number? && l.number <= r.number)
    case _ => false
  }

  const MATCHER := ["sd.search_vector", "@@", "websearch_to_tsquery('english',"]

  ghost predicate Atom(ws: seq<string>, args: seq<Datum>, row: Row) {
    if ws == ["1=1"] then true
    else if |ws| == 4 && ws[..3] == MATCHER && ws[3] != "" then
      var query := Operand(ws[3][..|ws[3]| - 1], args, row);
      query.Some? && query.value.Text? && query.value.text in row.matched
    else if |ws| == 3 && ws[1] == "IS" && ws[2] == "NULL" then Column(row, ws[0]).None?
    else |ws| == 3 && Compares(Operand(ws[0], args, row), ws[1], Operand(ws[2], args, row))
  }

  function Find(ws: seq<string>, w: string): (k: nat)
    ensures k <= |ws|
    ensures k < |ws| ==> ws[k] == w
  {
    if ws == [] || ws[0] == w then 0 else 1 + Find(ws[1..], w)
  }

  ghost predicate AllHold(ws: seq<string>, args: seq<Datum>, row: Row)
    decreases |ws|
  {
    var k := Find(ws, "AND");
    if k == |ws| then Atom(ws, args, row) else Atom(ws[..k], args, row) && AllHold(ws[k + 1..], args, row)
  }

  /** A row satisfies a text when one of its OR-separated parts has all of its AND-separated parts. */
  ghost predicate Holds(ws: seq<string>, args: seq<Datum>, row: Row)
    decreases |ws|
  {
    var k := Find(ws, "OR");
    if k == |ws| then AllHold(ws, args, row) else AllHold(ws[..k], args, row) || Holds(ws[k + 1..], args, row)
  }

  lemma {:induction false} FindWithin(x: seq<string>, w: string, more: seq<string>)
    ensures Find(x, w) < |x| ==> Find(x + more, w) == Find(x, w)
    ensures Find(x, w) == |x| ==> Find(x + [w] + more, w) == |x|
    ensures Find(x, w) == |x| <==> w !in x
  {
    if x != [] && x[0] != w {
      FindWithin(x[1..], w, more);
      assert (x + more)[1..] == x[1..] + more && (x + [w] + more)[1..] == x[1..] + [w] + more;
    } else if x == [] {
      assert (x + [w] + more)[0] == w;
    }
  }

  lemma AndFirst(ws: seq<string>, args: seq<Datum>, row: Row, k: nat)
    requires k < |ws| && Find(ws, "AND") == k
    ensures AllHold(ws, args, row) <==> Atom(ws[..k], args, row) && AllHold(ws[k + 1..], args, row)
  {
  }

  lemma {:induction false} AllHoldAnd(x: seq<string>, y: seq<string>, args: seq<Datum>, row: Row)
    ensures AllHold(x + ["AND"] + y, args, row) <==> AllHold(x, args, row) && AllHold(y, args, row)
    decreases |x|
  {
    var k := Find(x, "AND");
    var whole := x + ["AND"] + y;
    FindWithin(x, "AND", y);
    if k == |x| {
      assert whole[..k] == x && whole[k + 1..] == y;
      AndFirst(whole, args, row, k);
    } else {
      FindWithin(x, "AND", ["AND"] + y);
      assert whole == x + (["AND"] + y);
      assert whole[..k] == x[..k] && whole[k + 1..] == x[k + 1..] + ["AND"] + y;
      AndFirst(whole, args, row, k);
      AndFirst(x, args, row, k);
      AllHoldAnd(x[k + 1..], y, args, row);
    }
  }

  lemma HoldsWithoutOr(x: seq<string>, args: seq<Datum>, row: Row)
    requires "OR" !in x
    ensures Holds(x, args, row) <==> AllHold(x, args, row)
  {
    FindWithin(x, "OR", []);
  }

  lemma HoldsOr(x: seq<string>, y: seq<string>, args: seq<Datum>, row: Row)
    requires "OR" !in x && "OR" !in y
    ensures Holds(x + ["OR"] + y, args, row) <==> AllHold(x, args, row) || AllHold(y, args, row)
  {
    var whole := x + ["OR"] + y;
    FindWithin(x, "OR", y);
    assert whole[..|x|] == x && whole[|x| + 1..] == y;
    HoldsWithoutOr(y, args, row);
  }

  // ---------- Comparisons with appended arguments ----------

  datatype Condition = Condition(column: string, op: string, value: Datum)

  predicate Plain(c: Condition) {
    && Word(c.column) && c.column[0] != '$' && c.column[0] != '\'' && c.column != "AND" && c.column != "OR" && c.column != MATCHER[0]
    && c.op in {"=", ">=", "<="}
  }

  predicate AllPlain(conditions: seq<Condition>) {
    forall c :: c in conditions ==> Plain(c)
  }

  predicate Satisfies(row: Row, c: Condition) {
    Compares(Column(row, c.column), c.op, Some(c.value))
  }

  predicate SatisfiesAll(row: Row, conditions: seq<Condition>) {
    forall c :: c in conditions ==> Satisfies(row, c)
  }

  function Placeholder(n: nat): string {
    "$" + Print(n)
  }

  lemma PlaceholderResolves(n: nat, args: seq<Datum>, row: Row)
    requires 1 <= n <= |args|
    ensures Operand(Placeholder(n), args, row) == Some(args[n - 1])
    ensures Word(Placeholder(n)) && Placeholder(n) !in {"AND", "OR"}
  {
    ValuePrint(n);
    assert Placeholder(n)[1..] == Print(n);
  }

  function ConditionWords(c: Condition, n: nat): seq<string> {
    [c.column, c.op, Placeholder(n)]
  }

  lemma ConditionMeaning(c: Condition, n: nat, args: seq<Datum>, row: Row)
    requires Plain(c) && 1 <= n <= |args| && args[n - 1] == c.value
    ensures AllHold(ConditionWords(c, n), args, row) <==> Satisfies(row, c)
    ensures "OR" !in ConditionWords(c, n)
  {
    var ws := ConditionWords(c, n);
    PlaceholderResolves(n, args, row);
    FindWithin(ws, "AND", []);
    assert Operand(c.column, args, row) == Column(row, c.column);
    assert Atom(ws, args, row) <==> Satisfies(row, c);
  }

  /** The words of a text that starts as `first` and goes on with the conditions, the first of which
      takes argument number k + 1. */
  function Conjoined(first: seq<string>, k: nat, conditions: seq<Condition>): seq<string> {
    var n := |conditions|;
    if n == 0 then first
    else Conjoined(first, k, conditions[..n - 1]) + ["AND"] + ConditionWords(conditions[n - 1], k + n)
  }

  function Values(conditions: seq<Condition>): (values: seq<Datum>)
    ensures |values| == |conditions|
    ensures forall i :: 0 <= i < |conditions| ==> values[i] == conditions[i].value
  {
    seq(|conditions|, i requires 0 <= i < |conditions| => conditions[i].value)
  }

  lemma ValuesSnoc(conditions: seq<Condition>, c: Condition)
    ensures Values(conditions + [c]) == Values(conditions) + [c.value]
  {
  }

  lemma ConjoinedStep(first: seq<string>, k: nat, before: seq<Condition>, last: Condition, args: seq<Datum>, row: Row)
    requires Plain(last) && k + |before| < |args| && args[k + |before|] == last.value
    ensures AllHold(Conjoined(first, k, before + [last]), args, row) <==>
            AllHold(Conjoined(first, k, before), args, row) && Satisfies(row, last)
    ensures "OR" !in Conjoined(first, k, before) ==> "OR" !in Conjoined(first, k, before + [last])
  {
    var n := k + |before| + 1;
    assert (before + [last])[..|before|] == before;
    ConditionMeaning(last, n, args, row);
    AllHoldAnd(Conjoined(first, k, before), ConditionWords(last, n), args, row);
  }

  lemma {:induction false} ConjoinedMeaning(first: seq<string>, given: seq<Datum>, conditions: seq<Condition>,
                                            args: seq<Datum>, row: Row)
    requires AllPlain(conditions)
    requires given + Values(conditions) <= args
    ensures AllHold(Conjoined(first, |given|, conditions), args, row) <==>
            AllHold(first, args, row) && SatisfiesAll(row, conditions)
    ensures "OR" !in first ==> "OR" !in Conjoined(first, |given|, conditions)
    decreases |conditions|
  {
    var n := |conditions|;
    if n > 0 {
      var before, last := conditions[..n - 1], conditions[n - 1];
      assert conditions == before + [last];
      ValuesSnoc(before, last);
      assert given + Values(conditions) == (given + Values(before)) + [last.value];
      assert args[|given| + n - 1] == (given + Values(conditions))[|given| + n - 1];
      ConjoinedMeaning(first, given, before, args, row);
      ConjoinedStep(first, |given|, before, last, args, row);
      SatisfiesSnoc(row, before, last);
    }
  }

  lemma SatisfiesSnoc(row: Row, before: seq<Condition>, last: Condition)
    ensures SatisfiesAll(row, before + [last]) <==> SatisfiesAll(row, before) && Satisfies(row, last)
  {
    if SatisfiesAll(row, before + [last]) {
      assert last in before + [last];
      forall c | c in before ensures Satisfies(row, c) { assert c in before + [last]; }
    }
  }
}
