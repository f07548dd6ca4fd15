/** How long tokens last: from the call that issues a token to the call that ends it, over every run
    in between (services/api/internal/auth/service.go). */
module TokenLifetimes {
  import opened Options
  import opened TokenFamilies

  // ---------- What ends a refresh token ----------

  /** The calls that end live token `id`: its own exchange before it has expired, the replay of an older
      token of its family, a logout that reaches it, and a password reset of its user. */
  predicate Ends(s: Store, op: Operation, id: nat)
    requires id < |s.tokens|
  {
    var t := s.tokens[id];
    match op
    case Refresh(hash, _, _, now) =>
      if hash == t.hash then now <= t.expiresAt
      else exists i :: 0 <= i < |s.tokens| && s.tokens[i].hash == hash && s.tokens[i].family == t.family
    case Logout(user, _) => user == t.user
    case LogoutSession(user, hash, _) => user == t.user && hash == t.hash
    case RevokeSession(user, k, _) => user == t.user && k == id
    case ResetPassword(hash, password, now) =>
      && |password| >= 8
      && exists i :: 0 <= i < |s.resets| && s.resets[i].hash == hash && s.resets[i].usedAt.None?
                     && now <= s.resets[i].expiresAt && s.resets[i].user == t.user
    case Issue(_, _, _, _) => false
    case RequestReset(_, _, _) => false
  }

  ghost predicate EndedDuring(s: Store, run: seq<Operation>, id: nat)
    requires id < |s.tokens|
    decreases |run|
  {
    run != [] &&
    (Ends(s, run[0], id) || (StepExtends(s, run[0]); EndedDuring(Step(s, run[0]), run[1..], id)))
  }

  lemma FindIs(s: Store, id: nat, hash: string)
    requires Inv(s) && id < |s.tokens| && s.tokens[id].hash == hash
    ensures Find(s.tokens, hash) == Some(id)
  {
    FindUnique(s, id);
  }

  lemma FindResetIs(s: Store, id: nat)
    requires Inv(s) && id < |s.resets|
    ensures FindReset(s.resets, s.resets[id].hash) == if s.resets[id].usedAt.None? then Some(id) else None
  {
    var found := FindReset(s.resets, s.resets[id].hash);
    assert found.Some? ==> s.resets[found.value].hash == s.resets[id].hash;
  }

  // One presented token of the family of live token `id` is that token or an older, revoked one.
  lemma FamilyPresented(s: Store, id: nat, i: nat)
    requires Inv(s) && Live(s, id) && i < |s.tokens| && SameFamily(s, i, id)
    ensures i != id ==> s.tokens[i].revokedAt.Some? && s.tokens[i].hash != s.tokens[id].hash
  {
    if i < id { assert PairOk(s, i, id); }
    if id < i {
      var _ := PairOk(s, id, i);
      assert false;
    }
  }

  lemma RefreshEndsIff(s: Store, op: Operation, id: nat)
    requires Inv(s) && Enabled(s, op) && Live(s, id) && op.Refresh?
    ensures Live(Step(s, op), id) <==> !Ends(s, op, id)
    ensures Ends(s, op, id) ==> Step(s, op).tokens[id].revokedAt == Some(op.now)
  {
    var found := Find(s.tokens, op.hash);
    if op.hash == s.tokens[id].hash { FindIs(s, id, op.hash); }
    if i :| 0 <= i < |s.tokens| && s.tokens[i].hash == op.hash && s.tokens[i].family == s.tokens[id].family {
      FindIs(s, i, op.hash);
      FamilyPresented(s, id, i);
    }
    if found.Some? { FindIs(s, found.value, op.hash); }
  }

  lemma ResetEndsIff(s: Store, op: Operation, id: nat)
    requires Inv(s) && Live(s, id) && op.ResetPassword?
    ensures Live(Step(s, op), id) <==> !Ends(s, op, id)
    ensures Ends(s, op, id) ==> Step(s, op).tokens[id].revokedAt == Some(op.now)
  {
    if i :| 0 <= i < |s.resets| && s.resets[i].hash == op.hash && s.resets[i].usedAt.None? { FindResetIs(s, i); }
  }

  /** Exactly these calls end a live token, and its row then says when. */
  lemma StepEndsIff(s: Store, op: Operation, id: nat)
    requires Inv(s) && Enabled(s, op) && Live(s, id)
    ensures Live(Step(s, op), id) <==> !Ends(s, op, id)
    ensures Ends(s, op, id) ==> Step(s, op).tokens[id].revokedAt == Some(op.now)
  {
    match op
    case Refresh(_, _, _, _) => RefreshEndsIff(s, op, id);
    case ResetPassword(_, _, _) => ResetEndsIff(s, op, id);
    case LogoutSession(_, hash, _) => if hash == s.tokens[id].hash { FindIs(s, id, hash); }
    case _ =>
  }

  /** A live token is live at the end of a run exactly when no call of the run ended it; otherwise it
      is revoked for good.  Nothing else about it ever changes. */
  lemma {:induction false} LiveUntilEnded(s: Store, run: seq<Operation>, s': Store, id: nat)
    requires Inv(s) && Runs(s, run, s') && Live(s, id)
    ensures id < |s'.tokens| && s'.tokens[id].(revokedAt := None) == s.tokens[id]
    ensures Live(s', id) <==> !EndedDuring(s, run, id)
    decreases |run|
  {
    if run != [] {
      var mid := Step(s, run[0]);
      StepEndsIff(s, run[0], id);
      StepExtends(s, run[0]);
      InvStep(s, run[0]);
      if Live(mid, id) {
        LiveUntilEnded(mid, run[1..], s', id);
      } else {
        InvRuns(mid, run[1..], s');
      }
    }
  }

  // ---------- From issue to expiry ----------

  /** A call that hands out a new token, to `user` and in `family`, good until `expiry`. */
  ghost predicate Issues(s: Store, op: Operation, user: string, family: string, hash: string, expiry: int) {
    match op
    case Issue(u, h, f, e) => u == user && h == hash && f == family && e == expiry
    case Refresh(presented, h, ttl, now) =>
      && RefreshResult(s, presented, now) == Exchanged && h == hash && expiry == now + ttl
      && exists i :: 0 <= i < |s.tokens| && s.tokens[i].hash == presented && s.tokens[i].user == user && s.tokens[i].family == family
    case _ => false
  }

  lemma IssuedRow(s: Store, op: Operation, user: string, family: string, hash: string, expiry: int)
    requires Inv(s) && Enabled(s, op) && Issues(s, op, user, family, hash, expiry)
    ensures |Step(s, op).tokens| == |s.tokens| + 1
    ensures Step(s, op).tokens[|s.tokens|] == Token(user, hash, family, expiry, None)
  {
    if op.Refresh? {
      var i :| 0 <= i < |s.tokens| && s.tokens[i].hash == op.hash && s.tokens[i].user == user && s.tokens[i].family == family;
      FindIs(s, i, op.hash);
    }
  }

  /** The life of a token, whatever is done after it was issued: presented at `later`, it is exchanged
      exactly while no call has ended it and `later` is not past its expiry; once ended it is reported
      as reuse; and once merely expired it is refused without any effect, every time. */
  lemma TokenLifetime(before: seq<Operation>, s: Store, op: Operation, user: string, family: string, hash: string, expiry: int,
                      between: seq<Operation>, m: Store, newHash: string, ttl: int, later: int)
    requires Runs(Empty, before, s) && Enabled(s, op) && Issues(s, op, user, family, hash, expiry)
    requires Runs(Step(s, op), between, m)
    ensures |s.tokens| < |Step(s, op).tokens|
    ensures var ended := EndedDuring(Step(s, op), between, |s.tokens|);
            && (RefreshResult(m, hash, later) == Exchanged <==> !ended && later <= expiry)
            && (RefreshResult(m, hash, later) == ReuseDetected <==> ended)
            && (RefreshResult(m, hash, later) == InvalidToken <==> !ended && later > expiry)
            && (!ended && later > expiry ==> Step(m, Refresh(hash, newHash, ttl, later)) == m)
    ensures |s.tokens| < |m.tokens| && m.tokens[|s.tokens|].user == user && m.tokens[|s.tokens|].family == family
  {
    InvRuns(Empty, before, s);
    InvStep(s, op);
    IssuedRow(s, op, user, family, hash, expiry);
    LiveUntilEnded(Step(s, op), between, m, |s.tokens|);
    InvRuns(Step(s, op), between, m);
    FindIs(m, |s.tokens|, hash);
  }

  /** What a refresh is answered, by what is stored under the presented hash; one that is not stored, or
      only expired, is refused without any effect. */
  lemma RefreshAnswers(before: seq<Operation>, s: Store, hash: string, newHash: string, ttl: int, now: int)
    requires Runs(Empty, before, s)
    ensures RefreshResult(s, hash, now) == ReuseDetected <==>
              exists i :: 0 <= i < |s.tokens| && s.tokens[i].hash == hash && s.tokens[i].revokedAt.Some?
    ensures RefreshResult(s, hash, now) == Exchanged <==>
              exists i :: 0 <= i < |s.tokens| && s.tokens[i].hash == hash && Live(s, i) && now <= s.tokens[i].expiresAt
    ensures RefreshResult(s, hash, now) == InvalidToken ==> Step(s, Refresh(hash, newHash, ttl, now)) == s
  {
    InvRuns(Empty, before, s);
    forall i: nat | i < |s.tokens| && s.tokens[i].hash == hash ensures Find(s.tokens, hash) == Some(i) { FindIs(s, i, hash); }
  }

  // ---------- Reset tokens and passwords ----------

  // Whether the run contains a successful reset with the token of that hash.
  ghost predicate UsedDuring(s: Store, run: seq<Operation>, hash: string)
    decreases |run|
  {
    run != [] &&
    ((run[0].ResetPassword? && run[0].hash == hash && ResetResult(s, hash, run[0].password, run[0].now) == PasswordChanged)
     || UsedDuring(Step(s, run[0]), run[1..], hash))
  }

  lemma {:induction false} UnusedUntilUsed(s: Store, run: seq<Operation>, s': Store, id: nat)
    requires Inv(s) && Runs(s, run, s') && id < |s.resets| && s.resets[id].usedAt.None?
    ensures id < |s'.resets| && s'.resets[id].(usedAt := None) == s.resets[id]
    ensures s'.resets[id].usedAt.Some? <==> UsedDuring(s, run, s.resets[id].hash)
    decreases |run|
  {
    if run != [] {
      var op, mid := run[0], Step(s, run[0]);
      InvStep(s, op);
      if op.ResetPassword? {
        FindResetIs(s, id);
        var found := FindReset(s.resets, op.hash);
        if found.Some? { FindResetIs(s, found.value); }
      }
      if mid.resets[id].usedAt.None? {
        UnusedUntilUsed(mid, run[1..], s', id);
      } else {
        UsedStaysUsed(mid, run[1..], s', id);
      }
    }
  }

  // What is found under a reset token's hash, after any run.
  lemma ResetRow(s: Store, request: Operation, between: seq<Operation>, m: Store)
    requires Inv(s) && request.RequestReset? && Enabled(s, request) && Runs(Step(s, request), between, m)
    ensures |s.resets| < |m.resets|
    ensures m.resets[|s.resets|].user == request.user && m.resets[|s.resets|].expiresAt == request.expiresAt
    ensures FindReset(m.resets, request.hash) == if UsedDuring(Step(s, request), between, request.hash) then None else Some(|s.resets|)
  {
    InvStep(s, request);
    UnusedUntilUsed(Step(s, request), between, m, |s.resets|);
    InvRuns(Step(s, request), between, m);
    FindResetIs(m, |s.resets|);
  }

  // What an attempt with the reset token in row `id` does, given what is found under its hash.
  lemma ResetAttempt(m: Store, hash: string, id: nat, password: string, later: int)
    requires id < |m.resets| && (FindReset(m.resets, hash) == Some(id) || FindReset(m.resets, hash) == None)
    ensures var m' := Step(m, ResetPassword(hash, password, later));
            if ResetResult(m, hash, password, later) == PasswordChanged
            then m'.passwords == m.passwords[m.resets[id].user := password] && id < |m'.resets| && m'.resets[id].usedAt == Some(later)
            else m' == m
  {
  }

  /** The life of a reset token: it changes the password exactly when the new one is long enough, it
      was not used before, and it has not expired.  A refused attempt does not use it up. */
  lemma ResetTokenLifetime(before: seq<Operation>, s: Store, request: Operation, between: seq<Operation>, m: Store,
                           password: string, later: int)
    requires Runs(Empty, before, s) && request.RequestReset? && Enabled(s, request)
    requires Runs(Step(s, request), between, m)
    ensures var used, result := UsedDuring(Step(s, request), between, request.hash), ResetResult(m, request.hash, password, later);
            && (result == WeakPassword <==> |password| < 8)
            && (result == AlreadyUsed <==> |password| >= 8 && used)
            && (result == Expired <==> |password| >= 8 && !used && later > request.expiresAt)
            && (result == PasswordChanged <==> |password| >= 8 && !used && later <= request.expiresAt)
    ensures var m' := Step(m, ResetPassword(request.hash, password, later));
            if ResetResult(m, request.hash, password, later) == PasswordChanged
            then m'.passwords == m.passwords[request.user := password]
                 && |s.resets| < |m'.resets| && m'.resets[|s.resets|].usedAt == Some(later)
            else m' == m
  {
    InvRuns(Empty, before, s);
    ResetRow(s, request, between, m);
    ResetAttempt(m, request.hash, |s.resets|, password, later);
  }

  // The user whose reset token has this hash, if the token can still be used at that time.
  ghost predicate Resets(s: Store, op: Operation, user: string) {
    && op.ResetPassword? && |op.password| >= 8
    && exists i :: 0 <= i < |s.resets| && s.resets[i].hash == op.hash && s.resets[i].usedAt.None?
                   && op.now <= s.resets[i].expiresAt && s.resets[i].user == user
  }

  /** The password of the last successful reset for the user in the run. */
  ghost function LastReset(s: Store, run: seq<Operation>, user: string): Option<string>
    decreases |run|
  {
    if run == [] then None
    else
      var rest := LastReset(Step(s, run[0]), run[1..], user);
      if rest.Some? then rest
      else if Resets(s, run[0], user) then Some(run[0].password)
      else None
  }

  lemma ResetsOne(s: Store, op: Operation, user: string)
    requires Inv(s)
    ensures Resets(s, op, user) ==> user in Step(s, op).passwords && Step(s, op).passwords[user] == op.password
    ensures !Resets(s, op, user) ==> (user in Step(s, op).passwords <==> user in s.passwords)
    ensures !Resets(s, op, user) && user in s.passwords ==> Step(s, op).passwords[user] == s.passwords[user]
  {
    if op.ResetPassword? {
      if i :| 0 <= i < |s.resets| && s.resets[i].hash == op.hash && s.resets[i].usedAt.None? { FindResetIs(s, i); }
      var found := FindReset(s.resets, op.hash);
      if found.Some? { FindResetIs(s, found.value); }
    }
  }

  /** After any run a user's password is the one of the user's last successful reset, or the old one if
      there was none: no other call touches passwords, and nobody else's reset does. */
  lemma {:induction false} PasswordIsLastReset(s: Store, run: seq<Operation>, s': Store, user: string)
    requires Inv(s) && Runs(s, run, s')
    ensures var last := LastReset(s, run, user);
            && (last.Some? ==> user in s'.passwords && s'.passwords[user] == last.value)
            && (last.None? ==> (user in s'.passwords <==> user in s.passwords))
            && (last.None? && user in s.passwords ==> s'.passwords[user] == s.passwords[user])
    decreases |run|
  {
    if run != [] {
      ResetsOne(s, run[0], user);
      InvStep(s, run[0]);
      PasswordIsLastReset(Step(s, run[0]), run[1..], s', user);
    }
  }
}
