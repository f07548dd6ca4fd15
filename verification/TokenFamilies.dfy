/** Refresh tokens and password-reset tokens (services/api/internal/auth/service.go over
    services/api/internal/auth/repository.go).

    Tables are sequences in insertion order and a row's id is its position; rows are never deleted.
    Each service call is atomic.  Token hashes and family ids are drawn fresh, as the UNIQUE
    column and the random generators make them. */
module TokenFamilies {
  import opened Options

  datatype Token = Token(user: string, hash: string, family: string, expiresAt: int, revokedAt: Option<int>)

  datatype ResetToken = ResetToken(user: string, hash: string, expiresAt: int, usedAt: Option<int>)

  /** `exchanged` lists the tokens that RefreshTokens has accepted; no operation looks at it. */
  datatype Store = Store(
    tokens: seq<Token>, resets: seq<ResetToken>, passwords: map<string, string>, exchanged: seq<nat>)

  datatype RefreshOutcome = Exchanged | InvalidToken | ReuseDetected

  datatype ResetOutcome = PasswordChanged | WeakPassword | AlreadyUsed | Expired

  datatype Operation =
    | Issue(user: string, hash: string, family: string, expiresAt: int)  // Login, OAuth login, StoreRefreshToken
    | Refresh(hash: string, newHash: string, ttl: int, now: int)
    | Logout(user: string, now: int)
    | LogoutSession(user: string, hash: string, now: int)
    | RevokeSession(user: string, id: nat, now: int)
    | RequestReset(user: string, hash: string, expiresAt: int)
    | ResetPassword(hash: string, password: string, now: int)

  // ---------- The repository's queries and updates ----------

  function Find(tokens: seq<Token>, hash: string): (id: Option<nat>)
    ensures id.Some? ==> id.value < |tokens| && tokens[id.value].hash == hash
    ensures id.None? ==> forall i :: 0 <= i < |tokens| ==> tokens[i].hash != hash
  {
    if tokens == [] then None
    else
      var last := |tokens| - 1;
      if tokens[last].hash == hash then Some(last) else Find(tokens[..last], hash)
  }

  // Only the unused reset tokens are found.
  function FindReset(resets: seq<ResetToken>, hash: string): (id: Option<nat>)
    ensures id.Some? ==> id.value < |resets| && resets[id.value].hash == hash && resets[id.value].usedAt.None?
    ensures id.None? ==> forall i :: 0 <= i < |resets| && resets[i].hash == hash ==> resets[i].usedAt.Some?
  {
    if resets == [] then None
    else
      var last := |resets| - 1;
      if resets[last].hash == hash && resets[last].usedAt.None? then Some(last) else FindReset(resets[..last], hash)
  }

  function Revoke(tokens: seq<Token>, id: nat, now: int): seq<Token>
    requires id < |tokens|
  {
    tokens[id := tokens[id].(revokedAt := Some(now))]
  }

  function RevokeIfLive(t: Token, chosen: bool, now: int): Token {
    if chosen && t.revokedAt.None? then t.(revokedAt := Some(now)) else t
  }

  function RevokeFamily(tokens: seq<Token>, family: string, now: int): (r: seq<Token>)
    ensures |r| == |tokens|
  {
    seq(|tokens|, i requires 0 <= i < |tokens| => RevokeIfLive(tokens[i], tokens[i].family == family, now))
  }

  function RevokeUser(tokens: seq<Token>, user: string, now: int): (r: seq<Token>)
    ensures |r| == |tokens|
  {
    seq(|tokens|, i requires 0 <= i < |tokens| => RevokeIfLive(tokens[i], tokens[i].user == user, now))
  }

  // ---------- The service calls ----------

  function RefreshResult(s: Store, hash: string, now: int): RefreshOutcome {
    match Find(s.tokens, hash)
    case None => InvalidToken
    case Some(id) =>
      if s.tokens[id].revokedAt.Some? then ReuseDetected
      else if now > s.tokens[id].expiresAt then InvalidToken
      else Exchanged
  }

  function ResetResult(s: Store, hash: string, password: string, now: int): ResetOutcome {
    if |password| < 8 then WeakPassword
    else
      match FindReset(s.resets, hash)
      case None => AlreadyUsed
      case Some(id) => if now > s.resets[id].expiresAt then Expired else PasswordChanged
  }

  predicate Enabled(s: Store, op: Operation) {
    match op
    case Issue(_, hash, family, _) =>
      Find(s.tokens, hash).None? && forall i :: 0 <= i < |s.tokens| ==> s.tokens[i].family != family
    case Refresh(_, newHash, _, _) => Find(s.tokens, newHash).None?
    case RequestReset(_, hash, _) => forall i :: 0 <= i < |s.resets| ==> s.resets[i].hash != hash
    case _ => true
  }

  function Step(s: Store, op: Operation): Store {
    match op
    case Issue(user, hash, family, expiresAt) =>
      s.(tokens := s.tokens + [Token(user, hash, family, expiresAt, None)])
    case Refresh(hash, newHash, ttl, now) =>
      (match Find(s.tokens, hash)
       case None => s
       case Some(id) =>
         var t := s.tokens[id];
         if t.revokedAt.Some? then s.(tokens := RevokeFamily(s.tokens, t.family, now))
         else if now > t.expiresAt then s
         else s.(tokens := Revoke(s.tokens, id, now) + [Token(t.user, newHash, t.family, now + ttl, None)],
                 exchanged := s.exchanged + [id]))
    case Logout(user, now) => s.(tokens := RevokeUser(s.tokens, user, now))
    case LogoutSession(user, hash, now) =>
      (match Find(s.tokens, hash)
       case None => s
       case Some(id) => if s.tokens[id].user != user then s else s.(tokens := Revoke(s.tokens, id, now)))
    case RevokeSession(user, id, now) =>
      if id < |s.tokens| && s.tokens[id].user == user then s.(tokens := Revoke(s.tokens, id, now)) else s
    case RequestReset(user, hash, expiresAt) =>
      s.(resets := s.resets + [ResetToken(user, hash, expiresAt, None)])
    case ResetPassword(hash, password, now) =>
      if ResetResult(s, hash, password, now) != PasswordChanged then s
      else
        var id := FindReset(s.resets, hash).value;
        var user := s.resets[id].user;
        s.(passwords := s.passwords[user := password],
           resets := s.resets[id := s.resets[id].(usedAt := Some(now))],
           tokens := RevokeUser(s.tokens, user, now))
  }

  ghost predicate Runs(s: Store, run: seq<Operation>, s': Store)
    decreases |run|
  {
    if run == [] then s == s'
    else Enabled(s, run[0]) && Runs(Step(s, run[0]), run[1..], s')
  }

  const Empty := Store([], [], map[], [])

  // ---------- The invariant ----------

  ghost predicate SameFamily(s: Store, i: nat, k: nat)
    requires i < |s.tokens| && k < |s.tokens|
  {
    s.tokens[i].family == s.tokens[k].family
  }

  /** Of two tokens of one family the older is revoked, has been exchanged, and belongs to the same user. */
  ghost predicate PairOk(s: Store, i: nat, k: nat)
    requires i < k < |s.tokens|
  {
    && s.tokens[i].hash != s.tokens[k].hash
    && (SameFamily(s, i, k) ==> s.tokens[i].user == s.tokens[k].user && s.tokens[i].revokedAt.Some? && i in s.exchanged)
  }

  // An exchanged token is revoked and has a successor in its family.
  ghost predicate ExchangedOk(s: Store, id: nat) {
    && id < |s.tokens| && s.tokens[id].revokedAt.Some?
    && exists k :: id < k < |s.tokens| && SameFamily(s, id, k)
  }

  ghost predicate Inv(s: Store) {
    && (forall i: nat, k: nat :: i < k < |s.tokens| ==> PairOk(s, i, k))
    && (forall id :: id in s.exchanged ==> ExchangedOk(s, id))
    && (forall i, k :: 0 <= i < k < |s.exchanged| ==> s.exchanged[i] != s.exchanged[k])
    && (forall i, k :: 0 <= i < k < |s.resets| ==> s.resets[i].hash != s.resets[k].hash)
  }

  // No operation rewrites a row, except to revoke it, or forgets an exchange.
  ghost predicate Extends(s: Store, s': Store) {
    && |s.tokens| <= |s'.tokens| && s.exchanged <= s'.exchanged
    && (forall i :: 0 <= i < |s.tokens| ==>
          && s'.tokens[i].(revokedAt := None) == s.tokens[i].(revokedAt := None)
          && (s.tokens[i].revokedAt.Some? ==> s'.tokens[i].revokedAt.Some?))
  }

  lemma StepExtends(s: Store, op: Operation)
    ensures Extends(s, Step(s, op))
  {
  }

  lemma PairStep(s: Store, op: Operation, i: nat, k: nat)
    requires Inv(s) && Enabled(s, op) && i < k < |Step(s, op).tokens|
    ensures PairOk(Step(s, op), i, k)
  {
    StepExtends(s, op);
    if k < |s.tokens| {
      assert PairOk(s, i, k);
    } else if op.Refresh? && i < |s.tokens| {
      var id := Find(s.tokens, op.hash).value;
      if i < id { assert PairOk(s, i, id); }
      if id < i { assert PairOk(s, id, i); }
      assert s.tokens[i].hash != op.newHash;
    }
  }

  lemma ExchangedStep(s: Store, op: Operation, id: nat)
    requires Inv(s) && Enabled(s, op) && id in Step(s, op).exchanged
    ensures ExchangedOk(Step(s, op), id)
  {
    var s' := Step(s, op);
    StepExtends(s, op);
    if id in s.exchanged {
      assert ExchangedOk(s, id);
      var k :| id < k < |s.tokens| && SameFamily(s, id, k);
      assert SameFamily(s', id, k);
    } else {
      assert SameFamily(s', id, |s.tokens|);
    }
  }

  lemma InvStep(s: Store, op: Operation)
    requires Inv(s) && Enabled(s, op)
    ensures Inv(Step(s, op))
  {
    var s' := Step(s, op);
    forall i: nat, k: nat | i < k < |s'.tokens| ensures PairOk(s', i, k) { PairStep(s, op, i, k); }
    forall id | id in s'.exchanged ensures ExchangedOk(s', id) { ExchangedStep(s, op, id); }
    if s'.exchanged != s.exchanged {
      var id := s'.exchanged[|s.exchanged|];
      assert id !in s.exchanged;
    }
  }

  lemma {:induction false} InvRuns(s: Store, run: seq<Operation>, s': Store)
    requires Inv(s) && Runs(s, run, s')
    ensures Inv(s') && Extends(s, s')
    decreases |run|
  {
    if run != [] {
      InvStep(s, run[0]);
      StepExtends(s, run[0]);
      InvRuns(Step(s, run[0]), run[1..], s');
    }
  }

  lemma FindUnique(s: Store, id: nat)
    requires Inv(s) && id < |s.tokens|
    ensures Find(s.tokens, s.tokens[id].hash) == Some(id)
  {
    var found := Find(s.tokens, s.tokens[id].hash);
    if found.Some? && found.value < id {
      var _ := PairOk(s, found.value, id);
      assert false;
    }
    if found.Some? && id < found.value {
      var _ := PairOk(s, id, found.value);
      assert false;
    }
  }

  // ---------- What holds in every run ----------

  ghost predicate Live(s: Store, id: nat) {
    id < |s.tokens| && s.tokens[id].revokedAt.None?
  }

  /** After any operations, a family has one user and at most one live token, which is its newest. */
  lemma OneLiveTokenPerFamily(run: seq<Operation>, s: Store, i: nat, k: nat)
    requires Runs(Empty, run, s) && i < |s.tokens| && k < |s.tokens| && SameFamily(s, i, k)
    ensures s.tokens[i].user == s.tokens[k].user
    ensures i < k ==> !Live(s, i)
    ensures Live(s, i) && Live(s, k) ==> i == k
  {
    InvRuns(Empty, run, s);
    if i < k { assert PairOk(s, i, k); }
    if k < i { assert PairOk(s, k, i); }
  }

  /** A token is exchanged at most once, and the exchanged tokens are exactly those that a newer
      token of their family has replaced. */
  lemma ExchangedAtMostOnce(run: seq<Operation>, s: Store, id: nat)
    requires Runs(Empty, run, s) && id < |s.tokens|
    ensures multiset(s.exchanged)[id] <= 1
    ensures id in s.exchanged <==> exists k :: id < k < |s.tokens| && SameFamily(s, id, k)
  {
    InvRuns(Empty, run, s);
    DistinctMultiplicity(s.exchanged, id);
    if id in s.exchanged { assert ExchangedOk(s, id); }
    if k :| id < k < |s.tokens| && SameFamily(s, id, k) { assert PairOk(s, id, k); }
  }

  lemma {:induction false} DistinctMultiplicity(ids: seq<nat>, id: nat)
    requires forall i, k :: 0 <= i < k < |ids| ==> ids[i] != ids[k]
    ensures multiset(ids)[id] <= 1
  {
    if ids != [] {
      var last := |ids| - 1;
      DistinctMultiplicity(ids[..last], id);
      assert ids == ids[..last] + [ids[last]];
      assert ids[last] !in ids[..last];
    }
  }

  // The family exists and none of its tokens is live.
  ghost predicate Dead(s: Store, family: string) {
    && (exists i :: 0 <= i < |s.tokens| && s.tokens[i].family == family)
    && (forall i :: 0 <= i < |s.tokens| && s.tokens[i].family == family ==> s.tokens[i].revokedAt.Some?)
  }

  lemma {:induction false} DeadForever(s: Store, run: seq<Operation>, s': Store, family: string)
    requires Dead(s, family) && Runs(s, run, s')
    ensures Dead(s', family)
    decreases |run|
  {
    if run != [] {
      DeadStep(s, run[0], family);
      DeadForever(Step(s, run[0]), run[1..], s', family);
    }
  }

  lemma DeadStep(s: Store, op: Operation, family: string)
    requires Dead(s, family) && Enabled(s, op)
    ensures Dead(Step(s, op), family)
  {
    var s' := Step(s, op);
    StepExtends(s, op);
    var i :| 0 <= i < |s.tokens| && s.tokens[i].family == family;
    assert s'.tokens[i].family == family;
    forall k | 0 <= k < |s'.tokens| && s'.tokens[k].family == family ensures s'.tokens[k].revokedAt.Some? {
      if k < |s.tokens| { assert s.tokens[k].family == family; }
    }
  }

  /** Reuse detection: presenting a revoked token, whenever that happens, is reported and leaves its
      family without a live token, whatever is done afterwards. */
  lemma ReuseKillsFamily(before: seq<Operation>, s: Store, id: nat, op: Operation, after: seq<Operation>, s': Store)
    requires Runs(Empty, before, s) && id < |s.tokens| && s.tokens[id].revokedAt.Some?
    requires op.Refresh? && op.hash == s.tokens[id].hash && Enabled(s, op)
    requires Runs(Step(s, op), after, s')
    ensures RefreshResult(s, op.hash, op.now) == ReuseDetected
    ensures Dead(s', s.tokens[id].family)
  {
    InvRuns(Empty, before, s);
    FindUnique(s, id);
    var next, family := Step(s, op), s.tokens[id].family;
    assert next.tokens[id].family == family;
    assert Dead(next, family);
    DeadForever(next, after, s', family);
  }

  /** Theft is noticed: when a token that has been exchanged is presented once more, by whoever comes
      second, nobody is left with a live token of that family. */
  lemma SecondUseKillsFamily(before: seq<Operation>, s: Store, first: Operation, between: seq<Operation>, m: Store,
                             second: Operation, after: seq<Operation>, s': Store)
    requires Runs(Empty, before, s) && first.Refresh? && Enabled(s, first)
    requires RefreshResult(s, first.hash, first.now) == Exchanged
    requires Runs(Step(s, first), between, m) && second.Refresh? && second.hash == first.hash && Enabled(m, second)
    requires Runs(Step(m, second), after, s')
    ensures RefreshResult(m, second.hash, second.now) == ReuseDetected
    ensures Dead(s', s.tokens[Find(s.tokens, first.hash).value].family)
  {
    var id := Find(s.tokens, first.hash).value;
    InvRuns(Empty, before, s);
    InvStep(s, first);
    InvRuns(Step(s, first), between, m);
    StepExtends(s, first);
    RunsCons(s, first, between, m);
    RunsAppend(Empty, before, s, [first] + between, m);
    ReuseKillsFamily(before + ([first] + between), m, id, second, after, s');
  }

  lemma RunsCons(s: Store, op: Operation, rest: seq<Operation>, s': Store)
    requires Enabled(s, op) && Runs(Step(s, op), rest, s')
    ensures Runs(s, [op] + rest, s')
  {
    assert ([op] + rest)[1..] == rest;
  }

  lemma {:induction false} RunsAppend(s: Store, first: seq<Operation>, m: Store, second: seq<Operation>, s': Store)
    requires Runs(s, first, m) && Runs(m, second, s')
    ensures Runs(s, first + second, s')
    decreases |first|
  {
    if first == [] {
      assert first + second == second;
    } else {
      assert (first + second)[1..] == first[1..] + second;
      RunsAppend(Step(s, first[0]), first[1..], m, second, s');
    }
  }

  /** Logging out and resetting the password leave the user without a live token, and none of the
      user's families ever has one again. */
  lemma LogoutEndsFamilies(before: seq<Operation>, s: Store, op: Operation, user: string,
                           after: seq<Operation>, s': Store, i: nat)
    requires Runs(Empty, before, s) && i < |s.tokens| && s.tokens[i].user == user && Enabled(s, op)
    requires (op.Logout? && op.user == user)
          || (op.ResetPassword? && ResetResult(s, op.hash, op.password, op.now) == PasswordChanged
              && s.resets[FindReset(s.resets, op.hash).value].user == user)
    requires Runs(Step(s, op), after, s')
    ensures forall k :: 0 <= k < |s.tokens| && s.tokens[k].user == user ==> !Live(Step(s, op), k)
    ensures Dead(s', s.tokens[i].family)
  {
    InvRuns(Empty, before, s);
    var next, family := Step(s, op), s.tokens[i].family;
    assert next.tokens[i].family == family;
    forall k: nat | k < |next.tokens| && next.tokens[k].family == family ensures next.tokens[k].revokedAt.Some? {
      if i < k { assert PairOk(s, i, k); }
      if k < i { assert PairOk(s, k, i); }
    }
    DeadForever(next, after, s', family);
  }

  /** A reset token changes a password at most once. */
  lemma ResetTokenOnce(before: seq<Operation>, s: Store, op: Operation, between: seq<Operation>, m: Store, again: Operation)
    requires Runs(Empty, before, s) && op.ResetPassword? && ResetResult(s, op.hash, op.password, op.now) == PasswordChanged
    requires Runs(Step(s, op), between, m) && again.ResetPassword? && again.hash == op.hash
    ensures ResetResult(m, again.hash, again.password, again.now) != PasswordChanged
  {
    InvRuns(Empty, before, s);
    UsedStaysUsed(Step(s, op), between, m, FindReset(s.resets, op.hash).value);
    InvStep(s, op);
    InvRuns(Step(s, op), between, m);
  }

  lemma {:induction false} UsedStaysUsed(s: Store, run: seq<Operation>, s': Store, id: nat)
    requires Runs(s, run, s') && id < |s.resets| && s.resets[id].usedAt.Some?
    ensures id < |s'.resets| && s'.resets[id] == s.resets[id]
    decreases |run|
  {
    if run != [] { UsedStaysUsed(Step(s, run[0]), run[1..], s', id); }
  }

  /** Why the calls must be atomic: two refreshes of one live token that both read it before either
      revokes it leave two live tokens in its family. */
  lemma InterleavedRefreshesBreakRotation(s: Store, id: nat, newHash1: string, newHash2: string, now: int, ttl: int)
    requires Live(s, id)
    ensures var t := s.tokens[id];
            var once := Revoke(s.tokens, id, now) + [Token(t.user, newHash1, t.family, now + ttl, None)];
            var twice := Revoke(once, id, now) + [Token(t.user, newHash2, t.family, now + ttl, None)];
            var s' := s.(tokens := twice);
            Live(s', |s.tokens|) && Live(s', |s.tokens| + 1) && SameFamily(s', |s.tokens|, |s.tokens| + 1)
  {
  }

  /** The service over its tables, one statement for each query or update of the code. */
  class AuthService {
    var tokens: seq<Token>
    var resets: seq<ResetToken>
    var passwords: map<string, string>
    ghost var exchanged: seq<nat>

    ghost function Value(): Store
      reads this
    {
      Store(tokens, resets, passwords, exchanged)
    }

    constructor ()
      ensures Value() == Empty
    {
      tokens, resets, passwords, exchanged := [], [], map[], [];
    }

    method CreateRefreshToken(user: string, hash: string, family: string, expiresAt: int)
      modifies this`tokens
      ensures tokens == old(tokens) + [Token(user, hash, family, expiresAt, None)]
    {
      tokens := tokens + [Token(user, hash, family, expiresAt, None)];
    }

    // Not guarded: a second revocation moves revoked_at.
    method RevokeRefreshToken(id: nat, now: int)
      requires id < |tokens|
      modifies this`tokens
      ensures tokens == Revoke(old(tokens), id, now)
    {
      tokens := tokens[id := tokens[id].(revokedAt := Some(now))];
    }

    method RevokeRefreshTokenFamily(family: string, now: int)
      modifies this`tokens
      ensures |tokens| == |old(tokens)|
      ensures forall i :: 0 <= i < |tokens| && old(tokens)[i].family == family ==> !Live(Value(), i)
      ensures forall i :: 0 <= i < |tokens| && old(tokens)[i].family == family && old(tokens)[i].revokedAt.None? ==>
                tokens[i] == old(tokens)[i].(revokedAt := Some(now))
      ensures forall i :: 0 <= i < |tokens| && (old(tokens)[i].family != family || old(tokens)[i].revokedAt.Some?) ==>
                tokens[i] == old(tokens)[i]
    {
      tokens := RevokeFamily(tokens, family, now);
    }

    method RevokeAllUserRefreshTokens(user: string, now: int)
      modifies this`tokens
      ensures |tokens| == |old(tokens)|
      ensures forall i :: 0 <= i < |tokens| && old(tokens)[i].user == user ==> !Live(Value(), i)
      ensures forall i :: 0 <= i < |tokens| && old(tokens)[i].user == user && old(tokens)[i].revokedAt.None? ==>
                tokens[i] == old(tokens)[i].(revokedAt := Some(now))
      ensures forall i :: 0 <= i < |tokens| && (old(tokens)[i].user != user || old(tokens)[i].revokedAt.Some?) ==>
                tokens[i] == old(tokens)[i]
    {
      tokens := RevokeUser(tokens, user, now);
    }

    method RefreshTokens(hash: string, newHash: string, ttl: int, now: int) returns (outcome: RefreshOutcome)
      modifies this
      ensures outcome == RefreshResult(old(Value()), hash, now)
      ensures Value() == Step(old(Value()), Refresh(hash, newHash, ttl, now))
    {
      var stored := Find(tokens, hash);
      if stored.None? {
        return InvalidToken;
      }
      var t := tokens[stored.value];
      if t.revokedAt.Some? {
        RevokeRefreshTokenFamily(t.family, now);
        assert tokens == RevokeFamily(old(tokens), t.family, now);
        return ReuseDetected;
      }
      if now > t.expiresAt {
        return InvalidToken;
      }
      RevokeRefreshToken(stored.value, now);
      CreateRefreshToken(t.user, newHash, t.family, now + ttl);
      exchanged := exchanged + [stored.value];
      outcome := Exchanged;
    }

    method LogoutAll(user: string, now: int)
      modifies this
      ensures Value() == Step(old(Value()), Logout(user, now))
    {
      RevokeAllUserRefreshTokens(user, now);
      assert tokens == RevokeUser(old(tokens), user, now);
    }

    method LogoutOne(user: string, hash: string, now: int)
      modifies this
      ensures Value() == Step(old(Value()), LogoutSession(user, hash, now))
    {
      var rt := Find(tokens, hash);
      if rt.None? || tokens[rt.value].user != user {
        return;
      }
      RevokeRefreshToken(rt.value, now);
    }

    method RevokeOne(user: string, id: nat, now: int) returns (found: bool)
      modifies this
      ensures Value() == Step(old(Value()), RevokeSession(user, id, now))
      ensures found <==> id < |old(tokens)| && old(tokens)[id].user == user
      ensures found ==> !Live(Value(), id)
    {
      found := id < |tokens| && tokens[id].user == user;
      if found {
        RevokeRefreshToken(id, now);
      }
    }

    method RequestPasswordReset(user: Option<string>, hash: string, expiresAt: int)
      modifies this
      ensures Value() == if user.None? then old(Value()) else Step(old(Value()), RequestReset(user.value, hash, expiresAt))
    {
      if user.None? {
        return;
      }
      resets := resets + [ResetToken(user.value, hash, expiresAt, None)];
    }

    method ChangeByReset(hash: string, password: string, now: int) returns (outcome: ResetOutcome)
      modifies this
      ensures outcome == ResetResult(old(Value()), hash, password, now)
      ensures Value() == Step(old(Value()), ResetPassword(hash, password, now))
    {
      if |password| < 8 {
        return WeakPassword;
      }
      var prt := FindReset(resets, hash);
      if prt.None? {
        return AlreadyUsed;
      }
      if now > resets[prt.value].expiresAt {
        return Expired;
      }
      var user := resets[prt.value].user;
      passwords := passwords[user := password];
      resets := resets[prt.value := resets[prt.value].(usedAt := Some(now))];
      RevokeAllUserRefreshTokens(user, now);
      assert tokens == RevokeUser(old(tokens), user, now);
      outcome := PasswordChanged;
    }
  }
}
