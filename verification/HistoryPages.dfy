/** What one page of chat history holds, and what becomes of a deleted message
    (services/api/internal/live/chat_repository.go). */
module HistoryPages {
  import opened Options
  import opened ChatHistory

  // ---------- One page ----------

  // How many messages a page may hold: what was asked for, if that is between 1 and 100.
  predicate Fits(n: nat, limit: int) {
    n <= 100 && if 1 <= limit <= 100 then n <= limit else n <= 50
  }

  // The messages that a reader with this cursor can be shown.
  ghost predicate Wanted(t: Table, stream: string, before: string, m: Message) {
    && m in t && m.stream == stream
    && (before != "" ==> exists x :: x in t && x.id == before && m.createdAt < x.createdAt)
  }

  lemma TakeHolds(rows: seq<Message>, limit: int)
    ensures Fits(|Take(rows, PageSize(limit))|, limit)
    ensures |Take(rows, PageSize(limit))| < |rows| ==>
              !Fits(|Take(rows, PageSize(limit))| + 1, limit)
    ensures Take(rows, PageSize(limit)) <= rows
  {
  }

  lemma WantedRows(t: Table, stream: string, before: string)
    requires Valid(t)
    ensures Decreasing(Coming(t, stream, before))
    ensures forall m :: m in Coming(t, stream, before) <==> Wanted(t, stream, before, m)
  {
    if before == "" {
      NewestIsOrdered(t, stream, None);
    } else {
      match Lookup(t, before)
      case None =>
        if x :| x in t && x.id == before { LookupFinds(t, x); }
      case Some(x) =>
        NewestIsOrdered(t, stream, Some(x.createdAt));
        forall y | y in t && y.id == before ensures y == x { LookupFinds(t, y); }
    }
  }

  // A message as it is stored, but for the body of a deleted one.
  predicate ShownAs(m: Message, e: Message) {
    e == m.(body := if m.deleted then "" else m.body)
  }

  /** The messages older than the cursor, newest first, and of these a page shows the first, as many as
      fit, each as it is stored but for the body of a deleted one.  With a cursor that names no message
      there are none. */
  lemma PageHolds(t: Table, stream: string, before: string, limit: int)
    requires Valid(t)
    ensures var rows, page := Coming(t, stream, before), Page(t, stream, before, limit);
            && Decreasing(rows) && (forall m :: m in rows <==> Wanted(t, stream, before, m))
            && |page| <= |rows| && Fits(|page|, limit) && (|page| < |rows| ==> !Fits(|page| + 1, limit))
            && forall i :: 0 <= i < |page| ==> ShownAs(rows[i], page[i])
  {
    TakeHolds(Coming(t, stream, before), limit);
    WantedRows(t, stream, before);
  }

  // ---------- Deletion ----------

  predicate Deletes(run: seq<Event>, id: string) {
    run != [] && ((run[0].Remove? && run[0].id == id) || Deletes(run[1..], id))
  }

  lemma LookupRemoved(t: Table, id: string, wanted: string)
    requires Lookup(t, wanted).Some?
    ensures var m := Lookup(t, wanted).value;
            Lookup(Removed(t, id), wanted) == Some(m.(deleted := m.deleted || id == wanted))
  {
    if t[|t| - 1].id != wanted {
      RemovedSnoc(t, id);
      LookupRemoved(t[..|t| - 1], id, wanted);
    }
  }

  lemma LookupSent(t: Table, m: Message, wanted: string)
    requires Lookup(t, wanted).Some? && Follows(t, m)
    ensures Lookup(t + [m], wanted) == Lookup(t, wanted)
  {
    assert (t + [m])[..|t|] == t;
  }

  /** After any sends, deletions and fetches a message is deleted exactly if it was before or one of the
      deletions named it; nothing else about it changes. */
  lemma {:induction false} DeletedIff(s: State, stream: string, run: seq<Event>, id: string)
    requires AllAllowed(s, stream, run) && Lookup(s.table, id).Some?
    ensures var m := Lookup(s.table, id).value;
            Lookup(After(s, stream, run).table, id) == Some(m.(deleted := m.deleted || Deletes(run, id)))
    decreases |run|
  {
    if run != [] {
      match run[0] {
        case Send(m) => LookupSent(s.table, m, id);
        case Remove(other) => LookupRemoved(s.table, other, id);
        case Fetch(_) =>
      }
      DeletedIff(Next(s, stream, run[0]), stream, run[1..], id);
    }
  }

  lemma {:induction false} ValidAfter(s: State, stream: string, run: seq<Event>)
    requires Valid(s.table) && AllAllowed(s, stream, run)
    ensures Valid(After(s, stream, run).table)
    decreases |run|
  {
    if run != [] {
      match run[0] {
        case Send(m) => assert (s.table + [m])[..|s.table|] == s.table;
        case Remove(id) => RemovedValid(s.table, id);
        case Fetch(_) =>
      }
      ValidAfter(Next(s, stream, run[0]), stream, run[1..]);
    }
  }

  /** So a page shows the body of a message exactly until the message is deleted, and then never again. */
  lemma ShownUntilDeleted(s: State, stream: string, run: seq<Event>, e: Message, cursor: string, limit: int)
    requires Valid(s.table) && AllAllowed(s, stream, run) && Lookup(s.table, e.id).Some?
    requires e in Page(After(s, stream, run).table, stream, cursor, limit)
    ensures var m := Lookup(s.table, e.id).value;
            && (m.deleted || Deletes(run, e.id) ==> e.deleted && e.body == "")
            && (!m.deleted && !Deletes(run, e.id) ==> e == m)
  {
    DeletedIff(s, stream, run, e.id);
    var t := After(s, stream, run).table;
    ValidAfter(s, stream, run);
    PageHolds(t, stream, cursor, limit);
    var i :| 0 <= i < |Page(t, stream, cursor, limit)| && Page(t, stream, cursor, limit)[i] == e;
    var m := Coming(t, stream, cursor)[i];
    assert ShownAs(m, e) && Wanted(t, stream, cursor, m);
    LookupFinds(t, m);
  }
}
