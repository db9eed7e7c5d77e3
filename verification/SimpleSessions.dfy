/**
 * What sessions are meant to be: a table of tokens from which a revocation deletes. The service keeps the tokens and
 * bumps epochs instead; call by call it accepts what the table accepts.
 */
module SimpleSessions {
  import opened Common
  import opened Redis
  import opened SessionKeys
  import opened RefreshRotation

  datatype Session = Session(user: Id, issuedAt: nat)

  /** The sessions by token, and who exists. */
  datatype Table = Table(sessions: map<Id, Session>, users: set<Id>)

  /** The token opens a session that has not run out, of a user who exists. */
  predicate Opens(t: Table, now: nat, token: Id, ttl: nat)
  {
    && token in t.sessions && now < t.sessions[token].issuedAt + ttl * 1000
    && t.sessions[token].user in t.users
  }

  function TableStep(t: Table, now: nat, call: Call, ttl: nat): Table
  {
    match call
    case Login(user, drawn) => t.(sessions := t.sessions[drawn := Session(user, now)])
    case Refresh(token, drawn) =>
      if token !in t.sessions || now >= t.sessions[token].issuedAt + ttl * 1000 then t
      else if t.sessions[token].user !in t.users then t.(sessions := t.sessions - {token})
      else t.(sessions := (t.sessions - {token})[drawn := Session(t.sessions[token].user, now)])
    case Logout(token) => t.(sessions := t.sessions - {token})
    case RevokeUserSessions(user) =>
      t.(sessions := map token | token in t.sessions && t.sessions[token].user != user :: t.sessions[token])
    case RevokeAllSessions => t.(sessions := map[])
    case AddUser(user) => t.(users := t.users + {user})
    case RemoveUser(user) => t.(users := t.users - {user})
  }

  function TableAfter(run: seq<Timed>, ttl: nat): Table
  {
    if run == [] then Table(map[], {})
    else TableStep(TableAfter(run[..|run| - 1], ttl), run[|run| - 1].at, run[|run| - 1].call, ttl)
  }

  predicate Presents(call: Call)
  {
    call.Refresh? || call.Logout? ==> !NamesEpoch(call.token)
  }

  // ---- The service refines the table ----

  /** Counters do not expire, so an epoch is the same at every instant. */
  function Current(keys: Keys, key: string): nat
  {
    if key in keys && keys[key].value.Counter? then keys[key].value.n else 0
  }

  ghost predicate CountersStand(keys: Keys)
  {
    forall k :: k in keys && IsEpochKey(k) ==> keys[k].value.Counter? && keys[k].expiresAt.None?
  }

  predicate NotAhead(keys: Keys, stored: Stored)
  {
    && stored.userEpoch <= Current(keys, UserEpochKey(stored.user))
    && stored.globalEpoch <= Current(keys, GLOBAL_EPOCH_KEY)
  }

  predicate UpToDate(keys: Keys, stored: Stored)
  {
    && stored.userEpoch == Current(keys, UserEpochKey(stored.user))
    && stored.globalEpoch == Current(keys, GLOBAL_EPOCH_KEY)
  }

  /** A stored token is in the table exactly when its epochs are the current ones. */
  predicate Agrees(keys: Keys, sessions: map<Id, Session>, ttl: nat, token: Id)
  {
    var key := TokenKey(token);
    && (key in keys ==> keys[key].value.Token? && NotAhead(keys, keys[key].value.stored))
    && (token in sessions <==> key in keys && UpToDate(keys, keys[key].value.stored))
    && (token in sessions ==>
          && keys[key].value.stored.user == sessions[token].user
          && keys[key].expiresAt == Some(sessions[token].issuedAt + ttl * 1000))
  }

  ghost predicate Refines(keys: Keys, sessions: map<Id, Session>, ttl: nat)
  {
    && CountersStand(keys)
    && (forall token: Id :: NamesEpoch(token) ==> token !in sessions)
    && (forall token: Id :: !NamesEpoch(token) ==> Agrees(keys, sessions, ttl, token))
  }

  lemma {:induction false} EpochIsCurrent(keys: Keys, now: nat, user: Id)
    requires CountersStand(keys)
    ensures Epoch(keys, now, UserEpochKey(user)) == Current(keys, UserEpochKey(user))
    ensures Epoch(keys, now, GLOBAL_EPOCH_KEY) == Current(keys, GLOBAL_EPOCH_KEY)
  {
    assert IsEpochKey(UserEpochKey(user)) && IsEpochKey(GLOBAL_EPOCH_KEY);
  }

  /** So a token is accepted by the service exactly when the table opens it. */
  lemma {:induction false} AcceptedIffOpen(keys: Keys, t: Table, ttl: nat, now: nat, token: Id)
    requires Refines(keys, t.sessions, ttl) && !NamesEpoch(token)
    ensures Accepted(keys, t.users, now, token) <==> Opens(t, now, token, ttl)
  {
    assert Agrees(keys, t.sessions, ttl, token);
    var key := TokenKey(token);
    if key in keys {
      EpochIsCurrent(keys, now, keys[key].value.stored.user);
    }
  }

  /** A key that is no epoch's touches no epoch. */
  lemma {:induction false} SameEpochs(keys: Keys, later: Keys, token: Id)
    requires !NamesEpoch(token) && CountersStand(keys)
    requires forall k :: k != TokenKey(token) ==> (k in keys <==> k in later)
    requires forall k :: k in keys && k != TokenKey(token) ==> later[k] == keys[k]
    ensures CountersStand(later)
    ensures forall key :: IsEpochKey(key) ==> Current(later, key) == Current(keys, key)
  {
    NamesEpochMeans(token);
  }

  lemma {:induction false} OthersAgree(keys: Keys, later: Keys, sessions: map<Id, Session>, after: map<Id, Session>,
                                       ttl: nat, token: Id, other: Id)
    requires !NamesEpoch(token) && CountersStand(keys) && other != token && Agrees(keys, sessions, ttl, other)
    requires forall k :: k != TokenKey(token) ==> (k in keys <==> k in later)
    requires forall k :: k in keys && k != TokenKey(token) ==> later[k] == keys[k]
    requires (other in after <==> other in sessions) && (other in after ==> after[other] == sessions[other])
    ensures Agrees(later, after, ttl, other)
  {
    SameEpochs(keys, later, token);
    SameToken(token, other);
    var key := TokenKey(other);
    if key in keys {
      assert IsEpochKey(UserEpochKey(keys[key].value.stored.user)) && IsEpochKey(GLOBAL_EPOCH_KEY);
    }
  }

  lemma {:induction false} DropRefines(keys: Keys, sessions: map<Id, Session>, ttl: nat, token: Id)
    requires Refines(keys, sessions, ttl) && !NamesEpoch(token)
    ensures Refines(keys - {TokenKey(token)}, sessions - {token}, ttl)
  {
    var later, after := keys - {TokenKey(token)}, sessions - {token};
    SameEpochs(keys, later, token);
    forall other: Id | !NamesEpoch(other) && other != token ensures Agrees(later, after, ttl, other) {
      OthersAgree(keys, later, sessions, after, ttl, token, other);
    }
  }

  lemma {:induction false} IssueRefines(keys: Keys, sessions: map<Id, Session>, ttl: nat, now: nat, drawn: Id, user: Id)
    requires Refines(keys, sessions, ttl) && !NamesEpoch(drawn) && ttl > 0
    ensures Refines(Put(keys, now, TokenKey(drawn), Token(Issue(keys, now, user)), ttl),
                    sessions[drawn := Session(user, now)], ttl)
  {
    var later := Put(keys, now, TokenKey(drawn), Token(Issue(keys, now, user)), ttl);
    var after := sessions[drawn := Session(user, now)];
    SameEpochs(keys, later, drawn);
    EpochIsCurrent(keys, now, user);
    assert IsEpochKey(UserEpochKey(user)) && IsEpochKey(GLOBAL_EPOCH_KEY);
    forall other: Id | !NamesEpoch(other) && other != drawn ensures Agrees(later, after, ttl, other) {
      OthersAgree(keys, later, sessions, after, ttl, drawn, other);
    }
  }

  /** A bump moves one epoch up by one and nothing else. */
  lemma {:induction false} BumpCounts(keys: Keys, now: nat, key: string)
    requires CountersStand(keys) && IsEpochKey(key)
    ensures var later := Bumped(keys, now, key);
      && CountersStand(later) && Current(later, key) == Current(keys, key) + 1
      && (forall k :: k != key ==> Current(later, k) == Current(keys, k))
      && (forall k :: k != key ==> (k in later <==> k in keys) && (k in keys ==> later[k] == keys[k]))
  {
  }

  lemma {:induction false} RevokeUserRefines(keys: Keys, sessions: map<Id, Session>, ttl: nat, now: nat, user: Id)
    requires Refines(keys, sessions, ttl)
    ensures Refines(Bumped(keys, now, UserEpochKey(user)),
                    map token | token in sessions && sessions[token].user != user :: sessions[token], ttl)
  {
    var key := UserEpochKey(user);
    BumpCounts(keys, now, key);
    var later := Bumped(keys, now, key);
    var after := map token | token in sessions && sessions[token].user != user :: sessions[token];
    forall token: Id | !NamesEpoch(token) ensures Agrees(later, after, ttl, token) {
      UserFallsBehind(keys, later, sessions, after, ttl, user, token);
    }
  }

  lemma {:induction false} UserFallsBehind(keys: Keys, later: Keys, sessions: map<Id, Session>, after: map<Id, Session>,
                                           ttl: nat, user: Id, token: Id)
    requires !NamesEpoch(token) && Agrees(keys, sessions, ttl, token)
    requires Current(later, UserEpochKey(user)) == Current(keys, UserEpochKey(user)) + 1
    requires forall k :: k != UserEpochKey(user) ==>
      Current(later, k) == Current(keys, k) && (k in later <==> k in keys) && (k in keys ==> later[k] == keys[k])
    requires token in after <==> token in sessions && sessions[token].user != user
    requires token in after ==> after[token] == sessions[token]
    ensures Agrees(later, after, ttl, token)
  {
    NamesEpochMeans(token);
    assert TokenKey(token) != UserEpochKey(user);
    SameUserEpoch(user, user);
    if TokenKey(token) in keys {
      SameUserEpoch(user, keys[TokenKey(token)].value.stored.user);
    }
  }

  lemma {:induction false} RevokeAllRefines(keys: Keys, sessions: map<Id, Session>, ttl: nat, now: nat)
    requires Refines(keys, sessions, ttl)
    ensures Refines(Bumped(keys, now, GLOBAL_EPOCH_KEY), map[], ttl)
  {
    BumpCounts(keys, now, GLOBAL_EPOCH_KEY);
    var later := Bumped(keys, now, GLOBAL_EPOCH_KEY);
    forall token: Id | !NamesEpoch(token) ensures Agrees(later, map[], ttl, token) {
      NamesEpochMeans(token);
      assert TokenKey(token) != GLOBAL_EPOCH_KEY && Agrees(keys, sessions, ttl, token);
      if TokenKey(token) in keys {
        SameUserEpoch(keys[TokenKey(token)].value.stored.user, keys[TokenKey(token)].value.stored.user);
      }
    }
  }

  lemma {:induction false} RefreshRefines(keys: Keys, t: Table, ttl: nat, now: nat, token: Id, drawn: Id)
    requires Refines(keys, t.sessions, ttl) && !NamesEpoch(token) && !NamesEpoch(drawn) && ttl > 0
    ensures Refines(Refreshed(keys, t.users, now, token, drawn, ttl),
                    TableStep(t, now, Refresh(token, drawn), ttl).sessions, ttl)
  {
    AcceptedIffOpen(keys, t, ttl, now, token);
    assert Agrees(keys, t.sessions, ttl, token);
    DropRefines(keys, t.sessions, ttl, token);
    if Opens(t, now, token, ttl) {
      IssueRefines(keys - {TokenKey(token)}, t.sessions - {token}, ttl, now, drawn, t.sessions[token].user);
    } else if token !in t.sessions {
      assert t.sessions - {token} == t.sessions;
    }
  }

  lemma {:induction false} StepRefines(a: Auth, t: Table, e: Timed, ttl: nat)
    requires Refines(a.keys, t.sessions, ttl) && a.users == t.users && ttl > 0 && Presents(e.call)
    requires e.call.Login? || e.call.Refresh? ==> !NamesEpoch(e.call.drawn)
    ensures Refines(Step(a, e, ttl).keys, TableStep(t, e.at, e.call, ttl).sessions, ttl)
    ensures Step(a, e, ttl).users == TableStep(t, e.at, e.call, ttl).users
  {
    match e.call {
      case Login(user, drawn) => IssueRefines(a.keys, t.sessions, ttl, e.at, drawn, user);
      case Refresh(token, drawn) => RefreshRefines(a.keys, t, ttl, e.at, token, drawn);
      case Logout(token) => DropRefines(a.keys, t.sessions, ttl, token);
      case RevokeUserSessions(user) => RevokeUserRefines(a.keys, t.sessions, ttl, e.at, user);
      case RevokeAllSessions => RevokeAllRefines(a.keys, t.sessions, ttl, e.at);
      case AddUser(_) =>
      case RemoveUser(_) =>
    }
  }

  lemma {:induction false} RunRefines(run: seq<Timed>, ttl: nat)
    requires ttl > 0 && FreshTokens(run, ttl) && forall e :: e in run ==> Presents(e.call)
    ensures Refines(After(run, ttl).keys, TableAfter(run, ttl).sessions, ttl)
    ensures After(run, ttl).users == TableAfter(run, ttl).users
  {
    if run != [] {
      var head, e := run[..|run| - 1], run[|run| - 1];
      RunRefines(head, ttl);
      assert e in run;
      StepRefines(After(head, ttl), TableAfter(head, ttl), e, ttl);
    }
  }

  /**
   * After every run of calls that present no name of an epoch, and at every instant, the service accepts exactly the
   * tokens the table opens: those of an existing user that were issued less than the lifetime ago by a login or an
   * accepted refresh and have not been presented to a refresh or a logout, or been revoked, since.
   */
  lemma {:induction false} AcceptsAsTheTable(run: seq<Timed>, ttl: nat, now: nat, token: Id)
    requires ttl > 0 && FreshTokens(run, ttl) && (forall e :: e in run ==> Presents(e.call)) && !NamesEpoch(token)
    ensures Accepts(After(run, ttl), now, token) <==> Opens(TableAfter(run, ttl), now, token, ttl)
  {
    RunRefines(run, ttl);
    AcceptedIffOpen(After(run, ttl).keys, TableAfter(run, ttl), ttl, now, token);
  }
}
