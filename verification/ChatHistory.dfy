/** Chat history by cursor pages (services/api/internal/live/chat_repository.go). The table keeps its
    rows in the order they were inserted; within a stream later rows have later creation times. */
module ChatHistory {
  import opened Options

  datatype Message = Message(id: string, stream: string, body: string, deleted: bool, createdAt: int)

  type Table = seq<Message>

  function Lookup(t: Table, id: string): (m: Option<Message>)
    ensures m.Some? ==> m.value in t && m.value.id == id
  {
    if t == [] then None
    else if t[|t| - 1].id == id then Some(t[|t| - 1])
    else Lookup(t[..|t| - 1], id)
  }

  /** The hypothesis on ids and creation times: what the database generates for `m` is new and later. */
  predicate Follows(t: Table, m: Message) {
    m.id != "" && forall x :: x in t ==> x.id != m.id && (x.stream == m.stream ==> x.createdAt < m.createdAt)
  }

  predicate Valid(t: Table) {
    t == [] || (Valid(t[..|t| - 1]) && Follows(t[..|t| - 1], t[|t| - 1]))
  }

  // ---------- The queries ----------

  predicate Selected(m: Message, stream: string, bound: Option<int>) {
    m.stream == stream && (bound.Some? ==> m.createdAt < bound.value)
  }

  /** The messages of a stream created before a bound, the last inserted first. */
  function Newest(t: Table, stream: string, bound: Option<int>): seq<Message> {
    if t == [] then []
    else
      var older := Newest(t[..|t| - 1], stream, bound);
      if Selected(t[|t| - 1], stream, bound) then [t[|t| - 1]] + older else older
  }

  function Redacted(m: Message): Message {
    if m.deleted then m.(body := "") else m
  }

  function RedactedAll(rows: seq<Message>): (msgs: seq<Message>)
    ensures |msgs| == |rows|
    ensures forall i :: 0 <= i < |rows| ==> msgs[i] == Redacted(rows[i])
  {
    seq(|rows|, i requires 0 <= i < |rows| => Redacted(rows[i]))
  }

  function PageSize(limit: int): (n: nat)
    ensures n >= 1
  {
    if limit <= 0 || limit > 100 then 50 else limit
  }

  function Take(rows: seq<Message>, n: nat): seq<Message> {
    if |rows| <= n then rows else rows[..n]
  }

  /** An empty cursor asks for the newest messages; one that names no message finds nothing. */
  function Page(t: Table, stream: string, before: string, limit: int): seq<Message> {
    if before == "" then RedactedAll(Take(Newest(t, stream, None), PageSize(limit)))
    else match Lookup(t, before)
      case None => []
      case Some(m) => RedactedAll(Take(Newest(t, stream, Some(m.createdAt)), PageSize(limit)))
  }

  function Removed(t: Table, id: string): (t': Table)
    ensures |t'| == |t|
  {
    seq(|t|, i requires 0 <= i < |t| => if t[i].id == id then t[i].(deleted := true) else t[i])
  }

  // ---------- The order of a page ----------

  predicate Decreasing(rows: seq<Message>) {
    forall i, k :: 0 <= i < k < |rows| ==> rows[i].createdAt > rows[k].createdAt
  }

  /** The query's result is what ORDER BY created_at DESC asks for: exactly the selected messages, from
      the newest to the oldest. */
  lemma {:induction false} NewestIsOrdered(t: Table, stream: string, bound: Option<int>)
    requires Valid(t)
    ensures Decreasing(Newest(t, stream, bound))
    ensures forall m :: m in Newest(t, stream, bound) <==> m in t && Selected(m, stream, bound)
  {
    if t != [] {
      var before, last := t[..|t| - 1], t[|t| - 1];
      var older := Newest(before, stream, bound);
      NewestIsOrdered(before, stream, bound);
      assert t == before + [last];
      if Selected(last, stream, bound) {
        forall i, k | 0 <= i < k < |[last] + older| ensures ([last] + older)[i].createdAt > ([last] + older)[k].createdAt {
          assert older[k - 1] in older;
        }
      }
    }
  }

  /** Asking for what was created before the k-th message of a result leaves what came after it. */
  lemma {:induction false} NewestBefore(t: Table, stream: string, bound: Option<int>, k: nat)
    requires Valid(t) && k < |Newest(t, stream, bound)|
    ensures Newest(t, stream, Some(Newest(t, stream, bound)[k].createdAt)) == Newest(t, stream, bound)[k + 1..]
  {
    var before, last := t[..|t| - 1], t[|t| - 1];
    var rows := Newest(t, stream, bound);
    var older := Newest(before, stream, bound);
    NewestIsOrdered(before, stream, bound);
    if !Selected(last, stream, bound) {
      NewestBefore(before, stream, bound, k);
      assert rows[k] in older;
    } else if k > 0 {
      NewestBefore(before, stream, bound, k - 1);
      assert rows[k] == older[k - 1] && older[k - 1] in older;
      assert rows[k + 1..] == older[k..];
    } else {
      AllBefore(before, stream, bound, last.createdAt);
      assert rows[1..] == older;
    }
  }

  lemma {:induction false} AllBefore(t: Table, stream: string, bound: Option<int>, time: int)
    requires bound.Some? ==> time < bound.value
    requires forall m :: m in t && m.stream == stream ==> m.createdAt < time
    ensures Newest(t, stream, Some(time)) == Newest(t, stream, bound)
  {
    if t != [] {
      assert t[|t| - 1] in t;
      AllBefore(t[..|t| - 1], stream, bound, time);
    }
  }

  // ---------- Sending and deleting ----------

  function Ids(rows: seq<Message>): (ids: seq<string>)
    ensures |ids| == |rows|
    ensures forall i :: 0 <= i < |rows| ==> ids[i] == rows[i].id
  {
    seq(|rows|, i requires 0 <= i < |rows| => rows[i].id)
  }

  lemma RemovedSnoc(t: Table, id: string)
    requires t != []
    ensures Removed(t, id)[..|t| - 1] == Removed(t[..|t| - 1], id)
  {
  }

  lemma {:induction false} RemovedValid(t: Table, id: string)
    requires Valid(t)
    ensures Valid(Removed(t, id))
  {
    if t != [] {
      var before, last := t[..|t| - 1], t[|t| - 1];
      RemovedSnoc(t, id);
      RemovedValid(before, id);
      forall x | x in Removed(before, id) ensures x.id != last.id && (x.stream == last.stream ==> x.createdAt < last.createdAt) {
        var i :| 0 <= i < |before| && Removed(before, id)[i] == x;
        assert before[i] in before;
      }
    }
  }

  lemma {:induction false} RemovedKeepsOrder(t: Table, id: string, stream: string, bound: Option<int>)
    ensures Ids(Newest(Removed(t, id), stream, bound)) == Ids(Newest(t, stream, bound))
  {
    if t != [] {
      var before, last := t[..|t| - 1], t[|t| - 1];
      RemovedSnoc(t, id);
      RemovedKeepsOrder(before, id, stream, bound);
      var last' := Removed(t, id)[|t| - 1];
      assert last'.id == last.id && Selected(last', stream, bound) == Selected(last, stream, bound);
      IdsCons(last, Newest(before, stream, bound));
      IdsCons(last', Newest(Removed(before, id), stream, bound));
    }
  }

  lemma IdsCons(m: Message, rows: seq<Message>)
    ensures Ids([m] + rows) == [m.id] + Ids(rows)
  {
  }

  /** What a row may become: deleted. */
  predicate Later(m: Message, m': Message) {
    m' == m || m' == m.(deleted := true)
  }

  lemma {:induction false} RemovedLookup(t: Table, id: string, wanted: string)
    ensures Lookup(t, wanted).None? ==> Lookup(Removed(t, id), wanted).None?
    ensures Lookup(t, wanted).Some? ==> Lookup(Removed(t, id), wanted).Some?
                                        && Later(Lookup(t, wanted).value, Lookup(Removed(t, id), wanted).value)
  {
    if t != [] {
      RemovedSnoc(t, id);
      RemovedLookup(t[..|t| - 1], id, wanted);
    }
  }

  lemma {:induction false} LookupFinds(t: Table, m: Message)
    requires Valid(t) && m in t
    ensures Lookup(t, m.id) == Some(m)
  {
    var before, last := t[..|t| - 1], t[|t| - 1];
    assert t == before + [last];
    if m != last { LookupFinds(before, m); }
  }

  // ---------- Reading the whole history ----------

  datatype Event = Send(message: Message) | Remove(id: string) | Fetch(limit: int)

  /** A reader that keeps asking with the last id it was given, until a page is empty. */
  datatype Reader = Reader(before: string, got: seq<Message>, done: bool, fetches: nat)

  datatype State = State(table: Table, reader: Reader)

  predicate Allowed(t: Table, e: Event) {
    e.Send? ==> Follows(t, e.message) && !e.message.deleted
  }

  function Read(t: Table, stream: string, r: Reader, limit: int): Reader {
    if r.done then r else
    var page := Page(t, stream, r.before, limit);
    if page == [] then r.(done := true, fetches := r.fetches + 1)
    else Reader(page[|page| - 1].id, r.got + page, false, r.fetches + 1)
  }

  function Next(s: State, stream: string, e: Event): State {
    match e
    case Send(m) => s.(table := s.table + [m])
    case Remove(id) => s.(table := Removed(s.table, id))
    case Fetch(limit) => s.(reader := Read(s.table, stream, s.reader, limit))
  }

  predicate AllAllowed(s: State, stream: string, run: seq<Event>)
    decreases |run|
  {
    run == [] || (Allowed(s.table, run[0]) && AllAllowed(Next(s, stream, run[0]), stream, run[1..]))
  }

  function After(s: State, stream: string, run: seq<Event>): State
    decreases |run|
  {
    if run == [] then s else After(Next(s, stream, run[0]), stream, run[1..])
  }

  const NEW_READER := Reader("", [], false, 0)

  // What is still to come, given the cursor.
  function Coming(t: Table, stream: string, before: string): seq<Message> {
    if before == "" then Newest(t, stream, None)
    else match Lookup(t, before)
      case None => []
      case Some(m) => Newest(t, stream, Some(m.createdAt))
  }

  /** What the reader has so far and what is still to come make up what there was at first. */
  ghost predicate Inv(first: Table, stream: string, s: State) {
    var r := s.reader;
    && Valid(s.table)
    && (r.before != "" ==> Lookup(s.table, r.before).Some? && Lookup(s.table, r.before).value.stream == stream)
    && (!r.done ==> Ids(r.got) + Ids(Coming(s.table, stream, r.before)) == Ids(Newest(first, stream, None)))
    && (r.done ==> Ids(r.got) == Ids(Newest(first, stream, None)))
    && (!r.done ==> r.fetches <= |r.got| && (r.fetches > 0 ==> r.before != ""))
  }

  lemma NextPage(t: Table, stream: string, bound: Option<int>, n: nat)
    requires Valid(t) && n >= 1 && Newest(t, stream, bound) != []
    ensures var all := Newest(t, stream, bound);
            var rows := Take(all, n);
            var last := rows[|rows| - 1];
            && Lookup(t, last.id) == Some(last) && last.id != "" && last.stream == stream
            && all == rows + Newest(t, stream, Some(last.createdAt))
  {
    var all := Newest(t, stream, bound);
    var rows := Take(all, n);
    var last := rows[|rows| - 1];
    NewestIsOrdered(t, stream, bound);
    NewestBefore(t, stream, bound, |rows| - 1);
    assert last in all;
    LookupFinds(t, last);
    IdNotEmpty(t, last);
  }

  lemma IdsOfPage(got: seq<Message>, rows: seq<Message>, rest: seq<Message>)
    ensures Ids(got + RedactedAll(rows)) + Ids(rest) == Ids(got) + Ids(rows + rest)
  {
  }

  function Cursor(t: Table, before: string): Option<int> {
    if before == "" then None
    else match Lookup(t, before)
      case None => None
      case Some(m) => Some(m.createdAt)
  }

  // With a cursor that names a message, both what is to come and the page are cut off by its time.
  lemma CursorBounds(s: State, stream: string, limit: int)
    requires s.reader.before != "" ==> Lookup(s.table, s.reader.before).Some?
    ensures Coming(s.table, stream, s.reader.before) == Newest(s.table, stream, Cursor(s.table, s.reader.before))
    ensures Page(s.table, stream, s.reader.before, limit)
         == RedactedAll(Take(Newest(s.table, stream, Cursor(s.table, s.reader.before)), PageSize(limit)))
  {
  }

  lemma LastFetch(first: Table, stream: string, s: State, limit: int)
    requires Inv(first, stream, s) && !s.reader.done && Newest(s.table, stream, Cursor(s.table, s.reader.before)) == []
    ensures Inv(first, stream, Next(s, stream, Fetch(limit)))
  {
    CursorBounds(s, stream, limit);
    assert Ids(s.reader.got) + Ids([]) == Ids(s.reader.got);
  }

  lemma FullerFetch(first: Table, stream: string, s: State, limit: int)
    requires Inv(first, stream, s) && !s.reader.done && Newest(s.table, stream, Cursor(s.table, s.reader.before)) != []
    ensures Inv(first, stream, Next(s, stream, Fetch(limit)))
  {
    var r, bound := s.reader, Cursor(s.table, s.reader.before);
    var rows := Take(Newest(s.table, stream, bound), PageSize(limit));
    CursorBounds(s, stream, limit);
    NextPage(s.table, stream, bound, PageSize(limit));
    IdsOfPage(r.got, rows, Newest(s.table, stream, Some(rows[|rows| - 1].createdAt)));
    assert Next(s, stream, Fetch(limit)).reader == Reader(rows[|rows| - 1].id, r.got + RedactedAll(rows), false, r.fetches + 1);
  }

  lemma FetchKeeps(first: Table, stream: string, s: State, limit: int)
    requires Inv(first, stream, s) && !s.reader.done
    ensures Inv(first, stream, Next(s, stream, Fetch(limit)))
  {
    if Newest(s.table, stream, Cursor(s.table, s.reader.before)) == [] {
      LastFetch(first, stream, s, limit);
    } else {
      FullerFetch(first, stream, s, limit);
    }
  }

  lemma {:induction false} IdNotEmpty(t: Table, m: Message)
    requires Valid(t) && m in t
    ensures m.id != ""
  {
    var before, last := t[..|t| - 1], t[|t| - 1];
    assert t == before + [last];
    if m != last { IdNotEmpty(before, m); }
  }

  lemma RemoveKeeps(first: Table, stream: string, s: State, id: string)
    requires Inv(first, stream, s)
    ensures Inv(first, stream, Next(s, stream, Remove(id)))
  {
    var r := s.reader;
    RemovedValid(s.table, id);
    RemovedKeepsOrder(s.table, id, stream, None);
    if r.before != "" {
      RemovedLookup(s.table, id, r.before);
      RemovedKeepsOrder(s.table, id, stream, Some(Lookup(s.table, r.before).value.createdAt));
    }
  }

  // Once the reader has a cursor, or has finished, new messages are out of its way.
  lemma SendKeeps(first: Table, stream: string, s: State, m: Message)
    requires Inv(first, stream, s) && Follows(s.table, m) && s.reader.fetches > 0
    ensures Inv(first, stream, Next(s, stream, Send(m)))
  {
    var r := s.reader;
    var t' := s.table + [m];
    assert t'[..|t'| - 1] == s.table;
    if r.before != "" {
      assert Lookup(s.table, r.before).value in s.table;
    }
  }

  // ---------- What the entries show ----------

  /** A message as it was at the first fetch, or redacted: it shows its body only if it was not deleted
      when it was fetched, so in particular not if it was deleted from the start. */
  ghost predicate Faithful(first: Table, e: Message) {
    var m := Lookup(first, e.id);
    && m.Some?
    && e.stream == m.value.stream && e.createdAt == m.value.createdAt
    && (m.value.deleted ==> e.deleted)
    && e.body == if e.deleted then "" else m.value.body
  }

  ghost predicate Evolved(first: Table, t: Table) {
    forall id :: Lookup(first, id).Some? ==> Lookup(t, id).Some? && Later(Lookup(first, id).value, Lookup(t, id).value)
  }

  ghost predicate Shown(first: Table, s: State) {
    && Evolved(first, s.table)
    && forall e :: e in s.reader.got ==> Faithful(first, e)
  }

  lemma EvolvedNext(first: Table, t: Table, e: Event)
    requires Evolved(first, t) && Allowed(t, e)
    ensures e.Send? ==> Evolved(first, t + [e.message])
    ensures e.Remove? ==> Evolved(first, Removed(t, e.id))
  {
    if e.Send? {
      assert (t + [e.message])[..|t|] == t;
    }
    if e.Remove? {
      forall id | Lookup(first, id).Some?
        ensures Lookup(Removed(t, e.id), id).Some? && Later(Lookup(first, id).value, Lookup(Removed(t, e.id), id).value)
      {
        RemovedLookup(t, e.id, id);
      }
    }
  }

  lemma SameIdIn(got: seq<Message>, coming: seq<Message>, all: seq<Message>, m: Message) returns (m0: Message)
    requires Ids(got) + Ids(coming) == Ids(all) && m in coming
    ensures m0 in all && m0.id == m.id
  {
    var i :| 0 <= i < |coming| && coming[i] == m;
    assert (Ids(got) + Ids(coming))[|got| + i] == m.id;
    m0 := all[|got| + i];
  }

  lemma ComingFaithful(first: Table, stream: string, s: State, m: Message)
    requires Valid(first) && Inv(first, stream, s) && !s.reader.done && Evolved(first, s.table)
    requires m in Coming(s.table, stream, s.reader.before)
    ensures Faithful(first, Redacted(m))
  {
    var bound := if s.reader.before == "" then None else Some(Lookup(s.table, s.reader.before).value.createdAt);
    var m0 := SameIdIn(s.reader.got, Coming(s.table, stream, s.reader.before), Newest(first, stream, None), m);
    NewestIsOrdered(s.table, stream, bound);
    NewestIsOrdered(first, stream, None);
    LookupFinds(s.table, m);
    LookupFinds(first, m0);
  }

  lemma ShownNext(first: Table, stream: string, s: State, e: Event)
    requires Valid(first) && Inv(first, stream, s) && Shown(first, s) && Allowed(s.table, e)
    ensures Shown(first, Next(s, stream, e))
  {
    EvolvedNext(first, s.table, e);
    if e.Fetch? && !s.reader.done {
      var coming := Coming(s.table, stream, s.reader.before);
      var page := Page(s.table, stream, s.reader.before, e.limit);
      forall x | x in s.reader.got + page ensures Faithful(first, x) {
        if x in page {
          var i :| 0 <= i < |page| && page[i] == x;
          assert page[i] == Redacted(coming[i]);
          ComingFaithful(first, stream, s, coming[i]);
        }
      }
    }
  }

  // ---------- Paging ----------

  function Fetches(run: seq<Event>): nat {
    if run == [] then 0 else (if run[0].Fetch? then 1 else 0) + Fetches(run[1..])
  }

  lemma {:induction false} ReadOn(first: Table, stream: string, s: State, run: seq<Event>)
    requires Valid(first) && Inv(first, stream, s) && Shown(first, s) && AllAllowed(s, stream, run)
    requires s.reader.fetches > 0
    ensures var s' := After(s, stream, run);
            && Inv(first, stream, s') && Shown(first, s')
            && (s.reader.done ==> s'.reader.done)
            && (!s'.reader.done ==> s'.reader.fetches == s.reader.fetches + Fetches(run))
    decreases |run|
  {
    if run != [] {
      var e := run[0];
      match e {
        case Send(m) => SendKeeps(first, stream, s, m);
        case Remove(id) => RemoveKeeps(first, stream, s, id);
        case Fetch(limit) => if !s.reader.done { FetchKeeps(first, stream, s, limit); }
      }
      ShownNext(first, stream, s, e);
      ReadOn(first, stream, Next(s, stream, e), run[1..]);
    }
  }

  /** A reader that starts on a table and keeps fetching, with any page limits, while messages are sent
      and deleted in between: it has always got the newest messages of the stream so far, in order and
      each once, none missing in between; it ends after at most one more fetch than there were messages;
      and then it has got exactly the messages there were at its first fetch. */
  lemma Paging(first: Table, stream: string, limit: int, run: seq<Event>)
    requires Valid(first) && AllAllowed(Next(State(first, NEW_READER), stream, Fetch(limit)), stream, run)
    ensures var all := Newest(first, stream, None);
            var r := After(Next(State(first, NEW_READER), stream, Fetch(limit)), stream, run).reader;
            && Ids(r.got) <= Ids(all)
            && (r.done ==> Ids(r.got) == Ids(all))
            && (Fetches(run) >= |all| ==> r.done)
            && forall e :: e in r.got ==> Faithful(first, e)
  {
    var start := State(first, NEW_READER);
    var all := Newest(first, stream, None);
    assert [] + Ids(all) == Ids(all);
    FetchKeeps(first, stream, start, limit);
    ShownNext(first, stream, start, Fetch(limit));
    var s := Next(start, stream, Fetch(limit));
    ReadOn(first, stream, s, run);
    var s' := After(s, stream, run);
    if !s'.reader.done {
      assert |Ids(all)| == |s'.reader.got| + |Coming(s'.table, stream, s'.reader.before)|;
    }
  }

  /** Why creation times have to differ: of two messages with the same one, a reader that gets one a page
      never gets the other. */
  lemma TieSkipsMessage(stream: string, time: int, body: string)
    ensures var a, b := Message("a", stream, body, false, time), Message("b", stream, body, false, time);
            Page([a, b], stream, "", 1) == [b] && Page([a, b], stream, "b", 1) == []
  {
    var a, b := Message("a", stream, body, false, time), Message("b", stream, body, false, time);
    assert [a, b][..1] == [a] && [a][..0] == [];
    assert Newest([a], stream, None) == [a] && Newest([a, b], stream, None) == [b, a];
    assert Newest([a], stream, Some(time)) == [] && Newest([a, b], stream, Some(time)) == [];
  }

  // ---------- The repository ----------

  class ChatRepository {
    var table: Table

    constructor ()
      ensures table == []
    {
      table := [];
    }

    // The id and the creation time are the database's.
    method CreateMessage(id: string, stream: string, body: string, createdAt: int)
      requires Follows(table, Message(id, stream, body, false, createdAt))
      modifies this
      ensures table == old(table) + [Message(id, stream, body, false, createdAt)]
      ensures old(Valid(table)) ==> Valid(table)
    {
      table := table + [Message(id, stream, body, false, createdAt)];
      assert table[..|table| - 1] == old(table);
    }

    method ListMessages(stream: string, before: string, limit: int) returns (msgs: seq<Message>)
      ensures msgs == Page(table, stream, before, limit)
    {
      var size := limit;
      if size <= 0 || size > 100 { size := 50; }
      var rows: seq<Message>;
      if before == "" {
        rows := Take(Newest(table, stream, None), size);
      } else {
        match Lookup(table, before) {
          case None => rows := [];
          case Some(m) => rows := Take(Newest(table, stream, Some(m.createdAt)), size);
        }
      }
      msgs := [];
      for i := 0 to |rows|
        invariant msgs == RedactedAll(rows[..i])
      {
        var m := rows[i];
        if m.deleted { m := m.(body := ""); }
        msgs := msgs + [m];
      }
      assert rows[..|rows|] == rows;
    }

    /** Whether there was an undeleted message to delete. */
    method DeleteMessage(id: string) returns (deleted: bool)
      requires Valid(table)
      modifies this
      ensures deleted <==> Lookup(old(table), id).Some? && !Lookup(old(table), id).value.deleted
      ensures table == Removed(old(table), id)
    {
      deleted := exists i :: 0 <= i < |table| && table[i].id == id && !table[i].deleted;
      DeletesOne(table, id);
      var rows := table;
      table := seq(|rows|, i requires 0 <= i < |rows| => if rows[i].id == id && !rows[i].deleted then rows[i].(deleted := true) else rows[i]);
      assert forall i :: 0 <= i < |rows| ==> table[i] == Removed(rows, id)[i];
    }
  }

  lemma DeletesOne(t: Table, id: string)
    requires Valid(t)
    ensures (exists i :: 0 <= i < |t| && t[i].id == id && !t[i].deleted) <==>
            Lookup(t, id).Some? && !Lookup(t, id).value.deleted
  {
    forall i | 0 <= i < |t| && t[i].id == id ensures Lookup(t, id) == Some(t[i]) {
      LookupFinds(t, t[i]);
    }
  }
}
