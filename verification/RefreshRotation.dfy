/**
 * Rotating refresh tokens, each call taken as one step at one reading of the clock. Tokens and the counters of the
 * revocation epochs lie in one store; the counters never expire.
 */
module RefreshRotation {
  import opened Common
  import opened Redis
  import opened SessionKeys

  datatype Stored = Stored(user: Id, userEpoch: nat, globalEpoch: nat)

  datatype Value = Token(stored: Stored) | Counter(n: nat)

  type Keys = Store<Value>

  function Epoch(keys: Keys, now: nat, key: string): nat
  {
    var v := Lookup(keys, now, key);
    if v.Some? && v.value.Counter? then v.value.n else 0
  }

  /** INCR: a missing counter counts as zero, and a token is no number. */
  function Bumped(keys: Keys, now: nat, key: string): Keys
  {
    var v := Lookup(keys, now, key);
    if v.None? then keys[key := Entry(Counter(1), None)]
    else if v.value.Counter? then keys[key := keys[key].(value := Counter(v.value.n + 1))]
    else keys
  }

  /** What the store holds for a token issued now. */
  function Issue(keys: Keys, now: nat, user: Id): Stored
  {
    Stored(user, Epoch(keys, now, UserEpochKey(user)), Epoch(keys, now, GLOBAL_EPOCH_KEY))
  }

  /** The presented text is a live token that was issued under the current epochs. */
  predicate Valid(keys: Keys, now: nat, token: Id)
  {
    var v := Lookup(keys, now, TokenKey(token));
    v.Some? && v.value.Token? && v.value.stored == Issue(keys, now, v.value.stored.user)
  }

  /** A valid token of an existing user. */
  predicate Accepted(keys: Keys, users: set<Id>, now: nat, token: Id)
  {
    Valid(keys, now, token) && Lookup(keys, now, TokenKey(token)).value.stored.user in users
  }

  /** The store after a refresh: a live presented key is gone, whatever it held, and an accepted token is replaced. */
  function Refreshed(keys: Keys, users: set<Id>, now: nat, token: Id, drawn: Id, ttl: nat): Keys
  {
    var v, less := Lookup(keys, now, TokenKey(token)), keys - {TokenKey(token)};
    if v.None? then keys
    else if !Accepted(keys, users, now, token) then less
    else Put(less, now, TokenKey(drawn), Token(Issue(less, now, v.value.stored.user)), ttl)
  }

  class AuthService {
    const redis: RedisService<Value>
    const ttl: nat
    var users: set<Id>

    constructor (redis: RedisService<Value>, ttl: nat)
      ensures this.redis == redis && this.ttl == ttl && users == {}
    {
      this.redis, this.ttl, users := redis, ttl, {};
    }

    method GetEpoch(now: nat, key: string) returns (epoch: nat)
      ensures epoch == Epoch(redis.keys, now, key)
    {
      var v := redis.Get(now, key);
      return if v.Some? && v.value.Counter? then v.value.n else 0;
    }

    /** `drawn` is the random token of this call. */
    method GenerateRefreshToken(now: nat, user: Id, drawn: Id)
      modifies redis
      ensures redis.keys == Put(old(redis.keys), now, TokenKey(drawn), Token(Issue(old(redis.keys), now, user)), ttl)
      ensures !NamesEpoch(drawn) ==> Valid(redis.keys, now, drawn)
    {
      var userEpoch := GetEpoch(now, UserEpochKey(user));
      var globalEpoch := GetEpoch(now, GLOBAL_EPOCH_KEY);
      redis.Set(now, TokenKey(drawn), Token(Stored(user, userEpoch, globalEpoch)), ttl);
      NamesEpochMeans(drawn);
    }

    method Refresh(now: nat, token: Id, drawn: Id) returns (reply: Reply)
      modifies redis
      ensures redis.keys == Refreshed(old(redis.keys), users, now, token, drawn, ttl)
      ensures reply.Returned? <==> Accepted(old(redis.keys), users, now, token)
    {
      var v := redis.Get(now, TokenKey(token));
      if v.None? {
        return Thrown("Invalid or expired refresh token");
      }
      if v.value.Counter? {
        redis.Del(TokenKey(token));   // a number has no epochs to compare
        return Thrown("Session has been revoked");
      }
      var stored := v.value.stored;
      var userEpoch := GetEpoch(now, UserEpochKey(stored.user));
      var globalEpoch := GetEpoch(now, GLOBAL_EPOCH_KEY);
      redis.Del(TokenKey(token));
      if stored.userEpoch != userEpoch || stored.globalEpoch != globalEpoch {
        return Thrown("Session has been revoked");
      }
      if stored.user !in users {
        return Thrown("User not found");
      }
      GenerateRefreshToken(now, stored.user, drawn);
      return Returned;
    }

    /** Whatever the key holds is deleted. */
    method Logout(token: Id)
      modifies redis
      ensures redis.keys == old(redis.keys) - {TokenKey(token)}
      ensures forall now :: !Valid(redis.keys, now, token)
      ensures forall now, key :: IsEpochKey(key) && !NamesEpoch(token) ==>
        Epoch(redis.keys, now, key) == Epoch(old(redis.keys), now, key)
    {
      redis.Del(TokenKey(token));
      NamesEpochMeans(token);
    }

    method Bump(now: nat, key: string) returns (reply: Reply)
      modifies redis
      ensures redis.keys == Bumped(old(redis.keys), now, key)
      ensures reply.Returned? ==> Epoch(redis.keys, now, key) == Epoch(old(redis.keys), now, key) + 1
      ensures reply.Thrown? ==>
        Lookup(old(redis.keys), now, key).Some? && Lookup(old(redis.keys), now, key).value.Token?
    {
      var v := redis.Get(now, key);
      if v.None? {
        redis.keys := redis.keys[key := Entry(Counter(1), None)];
      } else if v.value.Counter? {
        redis.keys := redis.keys[key := redis.keys[key].(value := Counter(v.value.n + 1))];
      } else {
        return Thrown("value is not an integer");
      }
      return Returned;
    }

    /** No token the user has been issued so far is valid any more. */
    method RevokeUserSessions(now: nat, user: Id) returns (reply: Reply)
      modifies redis
      ensures redis.keys == Bumped(old(redis.keys), now, UserEpochKey(user))
      ensures reply.Returned? ==> forall t: Id :: IssuedTo(redis.keys, now, t, user) ==>
        redis.keys[TokenKey(t)].value.stored.userEpoch <= Epoch(old(redis.keys), now, UserEpochKey(user)) ==>
          !Valid(redis.keys, now, t)
    {
      reply := Bump(now, UserEpochKey(user));
    }

    /** No token anybody has been issued so far is valid any more. */
    method RevokeAllSessions(now: nat) returns (reply: Reply)
      modifies redis
      ensures redis.keys == Bumped(old(redis.keys), now, GLOBAL_EPOCH_KEY)
      ensures reply.Returned? ==> forall t: Id, user: Id :: IssuedTo(redis.keys, now, t, user) ==>
        redis.keys[TokenKey(t)].value.stored.globalEpoch <= Epoch(old(redis.keys), now, GLOBAL_EPOCH_KEY) ==>
          !Valid(redis.keys, now, t)
    {
      reply := Bump(now, GLOBAL_EPOCH_KEY);
    }
  }

  predicate IssuedTo(keys: Keys, now: nat, token: Id, user: Id)
  {
    var v := Lookup(keys, now, TokenKey(token));
    v.Some? && v.value.Token? && v.value.stored.user == user
  }

  // ---- Whole runs ----

  datatype Call =
    | Login(user: Id, drawn: Id)
    | Refresh(token: Id, drawn: Id)
    | Logout(token: Id)
    | RevokeUserSessions(user: Id)
    | RevokeAllSessions
    | AddUser(user: Id)
    | RemoveUser(user: Id)

  datatype Timed = Timed(at: nat, call: Call)

  /** The state of the service, with what the run has shown so far. */
  datatype Auth = Auth(
    keys: Keys,
    users: set<Id>,
    lineage: map<Id, nat>,       // history: every token issued, and the login it goes back to
    accepted: seq<Id>)           // history: the tokens that a refresh accepted, in order

  predicate Accepts(a: Auth, now: nat, token: Id)
  {
    Accepted(a.keys, a.users, now, token)
  }

  function Step(a: Auth, t: Timed, ttl: nat): Auth
  {
    match t.call
    case Login(user, drawn) =>
      a.(keys := Put(a.keys, t.at, TokenKey(drawn), Token(Issue(a.keys, t.at, user)), ttl),
         lineage := a.lineage[drawn := |a.lineage|])
    case Refresh(token, drawn) =>
      var keys := Refreshed(a.keys, a.users, t.at, token, drawn, ttl);
      if !Accepts(a, t.at, token) then a.(keys := keys)
      else a.(keys := keys, accepted := a.accepted + [token],
              lineage := if token in a.lineage then a.lineage[drawn := a.lineage[token]] else a.lineage)
    case Logout(token) => a.(keys := a.keys - {TokenKey(token)})
    case RevokeUserSessions(user) => a.(keys := Bumped(a.keys, t.at, UserEpochKey(user)))
    case RevokeAllSessions => a.(keys := Bumped(a.keys, t.at, GLOBAL_EPOCH_KEY))
    case AddUser(user) => a.(users := a.users + {user})
    case RemoveUser(user) => a.(users := a.users - {user})
  }

  const NOBODY: Auth := Auth(map[], {}, map[], [])

  function After(run: seq<Timed>, ttl: nat): Auth
  {
    if run == [] then NOBODY else Step(After(run[..|run| - 1], ttl), run[|run| - 1], ttl)
  }

  /** A random token is new and is no name of an epoch; what calls present is up to them. */
  predicate New(a: Auth, drawn: Id)
  {
    drawn !in a.lineage && !NamesEpoch(drawn)
  }

  predicate FreshTokens(run: seq<Timed>, ttl: nat)
  {
    run == [] ||
    var before, call := After(run[..|run| - 1], ttl), run[|run| - 1].call;
    && FreshTokens(run[..|run| - 1], ttl)
    && (call.Login? ==> New(before, call.drawn))
    && (call.Refresh? ==> New(before, call.drawn))
  }

  /** The token is stored. */
  predicate Stands(a: Auth, token: Id)
  {
    token in a.lineage && TokenKey(token) in a.keys
  }

  ghost predicate OneEach(a: Auth)
  {
    forall t: Id, u: Id :: Stands(a, t) && Stands(a, u) && a.lineage[t] == a.lineage[u] ==> t == u
  }

  /** What is stored as a token was issued, at most one of each lineage is stored, and no accepted one is. */
  ghost predicate Rotating(a: Auth)
  {
    && (forall k :: k in a.keys && a.keys[k].value.Token? ==> exists t: Id :: t in a.lineage && TokenKey(t) == k)
    && (forall t :: t in a.lineage ==> !NamesEpoch(t) && a.lineage[t] < |a.lineage|)
    && OneEach(a)
    && (forall t :: t in a.accepted ==> t in a.lineage && TokenKey(t) !in a.keys)
    && (forall i, j :: 0 <= i < j < |a.accepted| ==> a.accepted[i] != a.accepted[j])
  }

  lemma {:induction false} SameStanding(a: Auth, b: Auth)
    requires OneEach(a) && a.lineage == b.lineage && forall t :: Stands(b, t) ==> Stands(a, t)
    ensures OneEach(b)
  {
  }

  /** Dropping any key keeps the invariant. */
  lemma {:induction false} DropRotates(a: Auth, token: Id)
    requires Rotating(a)
    ensures Rotating(a.(keys := a.keys - {TokenKey(token)}))
  {
    var less := a.(keys := a.keys - {TokenKey(token)});
    SameStanding(a, less);
  }

  /** A stored token can be added to the accepted ones once it is dropped. */
  lemma {:induction false} DropAccepted(a: Auth, token: Id)
    requires Rotating(a) && TokenKey(token) in a.keys && a.keys[TokenKey(token)].value.Token?
    ensures token in a.lineage && Rotating(a.(keys := a.keys - {TokenKey(token)}, accepted := a.accepted + [token]))
  {
    DropRotates(a, token);
    var less := a.(keys := a.keys - {TokenKey(token)});
    var t: Id :| t in a.lineage && TokenKey(t) == TokenKey(token);
    SameToken(t, token);
    SameStanding(less, less.(accepted := a.accepted + [token]));
  }

  /** A counter that appears or goes up touches no token. */
  lemma {:induction false} BumpRotates(a: Auth, now: nat, key: string)
    requires Rotating(a) && IsEpochKey(key)
    ensures Rotating(a.(keys := Bumped(a.keys, now, key)))
  {
    var more := a.(keys := Bumped(a.keys, now, key));
    forall t | t in a.lineage ensures TokenKey(t) != key {
      NamesEpochMeans(t);
    }
    SameStanding(a, more);
  }

  /** Besides the new token stands only what stood before. */
  lemma {:induction false} DrawnStands(a: Auth, drawn: Id, line: nat, entry: Entry<Value>, t: Id)
    requires New(a, drawn) && t != drawn
    ensures var more := a.(keys := a.keys[TokenKey(drawn) := entry], lineage := a.lineage[drawn := line]);
      Stands(more, t) <==> Stands(a, t)
  {
    SameToken(t, drawn);
  }

  lemma {:induction false} DrawnOneEach(a: Auth, drawn: Id, line: nat, entry: Entry<Value>)
    requires OneEach(a) && New(a, drawn) && forall t :: Stands(a, t) ==> a.lineage[t] != line
    ensures OneEach(a.(keys := a.keys[TokenKey(drawn) := entry], lineage := a.lineage[drawn := line]))
  {
    var more := a.(keys := a.keys[TokenKey(drawn) := entry], lineage := a.lineage[drawn := line]);
    forall t: Id | t != drawn ensures Stands(more, t) <==> Stands(a, t) {
      DrawnStands(a, drawn, line, entry, t);
    }
    forall t: Id, u: Id | Stands(more, t) && Stands(more, u) && more.lineage[t] == more.lineage[u] ensures t == u {
      assert t == drawn || Stands(a, t);
      assert u == drawn || Stands(a, u);
    }
  }

  /** A new token can stand in a lineage in which none stands. */
  lemma {:induction false} DrawRotates(a: Auth, drawn: Id, line: nat, entry: Entry<Value>)
    requires Rotating(a) && New(a, drawn) && line <= |a.lineage|
    requires forall t :: Stands(a, t) ==> a.lineage[t] != line
    ensures Rotating(a.(keys := a.keys[TokenKey(drawn) := entry], lineage := a.lineage[drawn := line]))
  {
    var more := a.(keys := a.keys[TokenKey(drawn) := entry], lineage := a.lineage[drawn := line]);
    DrawnOneEach(a, drawn, line, entry);
    forall t: Id | t in a.lineage ensures TokenKey(t) != TokenKey(drawn) {
      SameToken(t, drawn);
    }
    forall k | k in more.keys && more.keys[k].value.Token?
      ensures exists t: Id :: t in more.lineage && TokenKey(t) == k
    {
      if k == TokenKey(drawn) {
        assert drawn in more.lineage;
      } else {
        var t: Id :| t in a.lineage && TokenKey(t) == k;
        assert t in more.lineage;
      }
    }
  }

  lemma {:induction false} StepRotates(a: Auth, t: Timed, ttl: nat)
    requires Rotating(a)
    requires t.call.Login? ==> New(a, t.call.drawn)
    requires t.call.Refresh? ==> New(a, t.call.drawn)
    ensures Rotating(Step(a, t, ttl))
  {
    match t.call {
      case Login(user, drawn) =>
        var entry := Put(a.keys, t.at, TokenKey(drawn), Token(Issue(a.keys, t.at, user)), ttl)[TokenKey(drawn)];
        DrawRotates(a, drawn, |a.lineage|, entry);
      case Refresh(token, drawn) =>
        DropRotates(a, token);
        if Accepts(a, t.at, token) {
          AcceptRotates(a, t.at, token, drawn, ttl);
        }
      case Logout(token) => DropRotates(a, token);
      case RevokeUserSessions(user) => BumpRotates(a, t.at, UserEpochKey(user));
      case RevokeAllSessions => BumpRotates(a, t.at, GLOBAL_EPOCH_KEY);
      case AddUser(_) => SameStanding(a, Step(a, t, ttl));
      case RemoveUser(_) => SameStanding(a, Step(a, t, ttl));
    }
  }

  /** Rotation: the new token takes the place of the accepted one in its lineage. */
  lemma {:induction false} AcceptRotates(a: Auth, now: nat, token: Id, drawn: Id, ttl: nat)
    requires Rotating(a) && Accepts(a, now, token) && New(a, drawn)
    ensures Rotating(Step(a, Timed(now, Refresh(token, drawn)), ttl))
  {
    DropAccepted(a, token);
    var less := a.(keys := a.keys - {TokenKey(token)}, accepted := a.accepted + [token]);
    forall t | Stands(less, t) ensures less.lineage[t] != a.lineage[token] {
      assert Stands(a, t) && Stands(a, token);
    }
    var stored := Issue(less.keys, now, Lookup(a.keys, now, TokenKey(token)).value.stored.user);
    var entry := Put(less.keys, now, TokenKey(drawn), Token(stored), ttl)[TokenKey(drawn)];
    DrawRotates(less, drawn, a.lineage[token], entry);
  }

  lemma {:induction false} RunRotates(run: seq<Timed>, ttl: nat)
    requires FreshTokens(run, ttl)
    ensures Rotating(After(run, ttl))
  {
    if run != [] {
      RunRotates(run[..|run| - 1], ttl);
      StepRotates(After(run[..|run| - 1], ttl), run[|run| - 1], ttl);
    }
  }

  /**
   * Over a whole run, whatever texts calls present: no token is accepted twice, and an accepted one is dead from then
   * on, at every later instant.
   */
  lemma {:induction false} AcceptedOnce(run: seq<Timed>, ttl: nat, i: nat, now: nat)
    requires FreshTokens(run, ttl) && i < |After(run, ttl).accepted|
    ensures var a := After(run, ttl);
      && (forall j :: 0 <= j < |a.accepted| && j != i ==> a.accepted[j] != a.accepted[i])
      && !Accepts(a, now, a.accepted[i])
  {
    RunRotates(run, ttl);
    var a := After(run, ttl);
    assert a.accepted[i] in a.accepted;
  }

  lemma {:induction false} LiveIsIssued(a: Auth, now: nat, t: Id)
    requires Rotating(a) && exists user :: IssuedTo(a.keys, now, t, user)
    ensures Stands(a, t)
  {
    var t0: Id :| t0 in a.lineage && TokenKey(t0) == TokenKey(t);
    SameToken(t0, t);
  }

  /** In every reachable state at most one token of a lineage is live. */
  lemma {:induction false} OneLiveTokenPerLineage(run: seq<Timed>, ttl: nat, now: nat, t: Id, u: Id)
    requires FreshTokens(run, ttl)
    requires var a := After(run, ttl);
      (exists user :: IssuedTo(a.keys, now, t, user)) && (exists user :: IssuedTo(a.keys, now, u, user))
    ensures var a := After(run, ttl);
      t in a.lineage && u in a.lineage && (a.lineage[t] == a.lineage[u] ==> t == u)
  {
    RunRotates(run, ttl);
    LiveIsIssued(After(run, ttl), now, t);
    LiveIsIssued(After(run, ttl), now, u);
  }

  /** A rotation hands the lineage on: the accepted token leaves it, and the new one is accepted at the same instant. */
  lemma {:induction false} RotationHandsOn(run: seq<Timed>, ttl: nat, now: nat, token: Id, drawn: Id)
    requires var next := run + [Timed(now, Refresh(token, drawn))]; FreshTokens(next, ttl)
    requires Accepts(After(run, ttl), now, token)
    ensures var a, b := After(run, ttl), After(run + [Timed(now, Refresh(token, drawn))], ttl);
      && token in a.lineage && drawn in b.lineage && b.lineage[drawn] == a.lineage[token]
      && Lookup(b.keys, now, TokenKey(token)).None?
      && Accepts(b, now, drawn)
  {
    var next := run + [Timed(now, Refresh(token, drawn))];
    assert next[..|run|] == run;
    RunRotates(run, ttl);
    var a := After(run, ttl);
    DropAccepted(a, token);
    HandsOn(a, ttl, now, token, drawn);
  }

  lemma {:induction false} HandsOn(a: Auth, ttl: nat, now: nat, token: Id, drawn: Id)
    requires Accepts(a, now, token) && token in a.lineage && New(a, drawn)
    ensures var b := Step(a, Timed(now, Refresh(token, drawn)), ttl);
      && drawn in b.lineage && b.lineage[drawn] == a.lineage[token]
      && Lookup(b.keys, now, TokenKey(token)).None?
      && Accepts(b, now, drawn)
  {
    SameToken(drawn, token);
    NamesEpochMeans(drawn);
  }
}
