/**
 * Refresh tokens and the two revocation epochs, one Redis command a step, in the one key space they share. Calls of
 * login, refresh, logout and the two revocations interleave at every command; a token can expire, and a call can die,
 * at any time.
 */
module RevocationEpochs {
  import opened Common
  import opened SessionKeys

  /** Who a revocation locked out. */
  datatype Revocation = OfUser(user: Id) | OfAll

  /**
   * The stored JSON. The rest is history: how many revocations had happened when issuance read the user's epoch and
   * the global one, and the login the token goes back to.
   */
  datatype Stored = Stored(user: Id, userEpoch: nat, globalEpoch: nat, userAt: nat, allAt: nat, line: nat)

  datatype Value = Token(stored: Stored) | Counter(n: nat)

  type Keys = map<string, Value>

  /** A call between two commands. */
  datatype Call =
    | Issuing(user: Id, line: nat)                             // will read the user's epoch
    | IssuingKnown(user: Id, userEpoch: nat, userAt: nat, line: nat)   // will read the global epoch
    | IssuingReady(stored: Stored)                             // will store the token
    | Checking(token: Id, stored: Stored)                      // has fetched the token, will read the user's epoch
    | CheckingKnown(token: Id, stored: Stored, userEpoch: nat, userAt: nat)
    | Mistaken(token: Id)                                      // has fetched a counter: it has no fields
    | MistakenKnown(token: Id)
    | Refused(token: Id)                                       // will delete the presented key and throw
    | Accepted(token: Id, user: Id, line: nat)                 // will delete the presented key and rotate
    | LookingUp(user: Id, line: nat)                           // will read the user's row

  /** A passed check, and how many revocations had happened at its two reads. */
  datatype Acceptance = Acceptance(token: Id, stored: Stored, userAt: nat, allAt: nat)

  datatype Sessions = Sessions(
    keys: Keys,
    calls: map<nat, Call>,
    revocations: seq<Revocation>,     // history
    accepted: seq<Acceptance>,        // history
    owners: seq<Id>)                  // history: the user of every login

  datatype Event =
    | Login(call: nat, user: Id)
    | ReadUserEpoch(call: nat)
    | ReadGlobalEpoch(call: nat)
    | StoreToken(call: nat, token: Id)
    | Refresh(call: nat, token: Id)
    | DeleteToken(call: nat)
    | FindUser(call: nat, found: bool)
    | Logout(token: Id)
    | Expire(key: string)
    | Die(call: nat)
    | RevokeUserSessions(user: Id)
    | RevokeAllSessions

  /** What names the epoch a revocation bumps. */
  function NameOf(r: Revocation): Id
  {
    if r.OfUser? then EPOCH_OF_USER + r.user else EPOCH_OF_ALL
  }

  /** A missing counter counts as zero. */
  function Epoch(keys: Keys, key: string): nat
  {
    if key in keys && keys[key].Counter? then keys[key].n else 0
  }

  predicate Enabled(s: Sessions, e: Event)
  {
    match e
    case Login(call, _) => call !in s.calls
    case ReadUserEpoch(call) =>
      call in s.calls && (s.calls[call].Issuing? || s.calls[call].Checking? || s.calls[call].Mistaken?)
    case ReadGlobalEpoch(call) =>
      call in s.calls && (s.calls[call].IssuingKnown? || s.calls[call].CheckingKnown? || s.calls[call].MistakenKnown?)
    case StoreToken(call, token) =>   // a random token is new and is no name of an epoch
      call in s.calls && s.calls[call].IssuingReady? && TokenKey(token) !in s.keys && !NamesEpoch(token)
    case Refresh(call, _) => call !in s.calls
    case DeleteToken(call) => call in s.calls && (s.calls[call].Refused? || s.calls[call].Accepted?)
    case FindUser(call, _) => call in s.calls && s.calls[call].LookingUp?
    case Expire(key) => key in s.keys && s.keys[key].Token?     // counters have no lifetime
    case Logout(_) | Die(_) | RevokeUserSessions(_) | RevokeAllSessions => true
  }

  function Bumped(keys: Keys, key: string): Keys
  {
    keys[key := Counter(Epoch(keys, key) + 1)]
  }

  function Next(s: Sessions, e: Event): Sessions
    requires Enabled(s, e)
  {
    var now := |s.revocations|;
    match e
    case Login(call, user) =>
      s.(calls := s.calls[call := Issuing(user, |s.owners|)], owners := s.owners + [user])
    case ReadUserEpoch(call) =>
      (match s.calls[call]
       case Issuing(user, line) =>
         s.(calls := s.calls[call := IssuingKnown(user, Epoch(s.keys, UserEpochKey(user)), now, line)])
       case Checking(token, stored) =>
         s.(calls := s.calls[call := CheckingKnown(token, stored, Epoch(s.keys, UserEpochKey(stored.user)), now)])
       case Mistaken(token) => s.(calls := s.calls[call := MistakenKnown(token)]))
    case ReadGlobalEpoch(call) =>
      var globalEpoch := Epoch(s.keys, GLOBAL_EPOCH_KEY);
      (match s.calls[call]
       case IssuingKnown(user, userEpoch, userAt, line) =>
         s.(calls := s.calls[call := IssuingReady(Stored(user, userEpoch, globalEpoch, userAt, now, line))])
       case CheckingKnown(token, stored, userEpoch, userAt) =>
         if stored.userEpoch != userEpoch || stored.globalEpoch != globalEpoch
         then s.(calls := s.calls[call := Refused(token)])
         else s.(calls := s.calls[call := Accepted(token, stored.user, stored.line)],
                 accepted := s.accepted + [Acceptance(token, stored, userAt, now)])
       case MistakenKnown(token) => s.(calls := s.calls[call := Refused(token)]))
    case StoreToken(call, token) =>
      s.(keys := s.keys[TokenKey(token) := Token(s.calls[call].stored)], calls := s.calls - {call})
    case Refresh(call, token) =>
      if TokenKey(token) !in s.keys then s
      else
        (match s.keys[TokenKey(token)]
         case Token(stored) => s.(calls := s.calls[call := Checking(token, stored)])
         case Counter(_) => s.(calls := s.calls[call := Mistaken(token)]))
    case DeleteToken(call) =>
      (match s.calls[call]
       case Refused(token) => s.(keys := s.keys - {TokenKey(token)}, calls := s.calls - {call})
       case Accepted(token, user, line) =>
         s.(keys := s.keys - {TokenKey(token)}, calls := s.calls[call := LookingUp(user, line)]))
    case FindUser(call, found) =>
      if found then s.(calls := s.calls[call := Issuing(s.calls[call].user, s.calls[call].line)])
      else s.(calls := s.calls - {call})
    case Logout(token) => s.(keys := s.keys - {TokenKey(token)})
    case Expire(key) => s.(keys := s.keys - {key})
    case Die(call) => s.(calls := s.calls - {call})
    case RevokeUserSessions(user) =>
      s.(keys := Bumped(s.keys, TokenKey(NameOf(OfUser(user)))), revocations := s.revocations + [OfUser(user)])
    case RevokeAllSessions =>
      s.(keys := Bumped(s.keys, TokenKey(NameOf(OfAll))), revocations := s.revocations + [OfAll])
  }

  function Then(s: Sessions, e: Event): Sessions
  {
    if Enabled(s, e) then Next(s, e) else s
  }

  function After(s: Sessions, run: seq<Event>): Sessions
  {
    if run == [] then s else Then(After(s, run[..|run| - 1]), run[|run| - 1])
  }

  const NOBODY: Sessions := Sessions(map[], map[], [], [], [])

  /** No call presents a name of an epoch as its token. */
  predicate PresentsTokens(run: seq<Event>)
  {
    forall e :: e in run ==> Presents(e)
  }

  predicate Presents(e: Event)
  {
    (e.Refresh? ==> !NamesEpoch(e.token)) && (e.Logout? ==> !NamesEpoch(e.token))
  }

  // ---- Epochs count revocations ----

  /** How many of the first `n` revocations were exactly this one. */
  function Count(revocations: seq<Revocation>, n: nat, r: Revocation): (c: nat)
    requires n <= |revocations|
  {
    if n == 0 then 0 else Count(revocations, n - 1, r) + if revocations[n - 1] == r then 1 else 0
  }

  lemma {:induction false} CountOfPrefix(revocations: seq<Revocation>, more: seq<Revocation>, n: nat, r: Revocation)
    requires n <= |revocations|
    ensures Count(revocations + more, n, r) == Count(revocations, n, r)
  {
    if n > 0 {
      CountOfPrefix(revocations, more, n - 1, r);
    }
  }

  /** Equal counts at two points: no such revocation in between. */
  lemma {:induction false} CountsAgree(revocations: seq<Revocation>, from: nat, to: nat, r: Revocation)
    requires from <= to <= |revocations|
    ensures Count(revocations, from, r) <= Count(revocations, to, r)
    ensures Count(revocations, from, r) == Count(revocations, to, r) <==> r !in revocations[from..to]
  {
    if from < to {
      CountsAgree(revocations, from, to - 1, r);
      assert revocations[from..to] == revocations[from..to - 1] + [revocations[to - 1]];
    }
  }

  // ---- The invariant ----

  /** A token's epochs are the numbers of revocations that had happened at its two reads. */
  ghost predicate StoredFits(revocations: seq<Revocation>, stored: Stored)
  {
    && stored.userAt <= stored.allAt <= |revocations|
    && stored.userEpoch == Count(revocations, stored.userAt, OfUser(stored.user))
    && stored.globalEpoch == Count(revocations, stored.allAt, OfAll)
  }

  ghost predicate CallFits(revocations: seq<Revocation>, call: Call)
  {
    match call
    case IssuingKnown(user, userEpoch, userAt, _) =>
      userAt <= |revocations| && userEpoch == Count(revocations, userAt, OfUser(user))
    case IssuingReady(stored) => StoredFits(revocations, stored)
    case Checking(token, stored) => StoredFits(revocations, stored) && !NamesEpoch(token)
    case CheckingKnown(token, stored, userEpoch, userAt) =>
      && StoredFits(revocations, stored) && !NamesEpoch(token)
      && stored.allAt <= userAt <= |revocations|
      && userEpoch == Count(revocations, userAt, OfUser(stored.user))
    case Mistaken(_) | MistakenKnown(_) => false
    case Refused(token) => !NamesEpoch(token)
    case Accepted(token, _, _) => !NamesEpoch(token)
    case Issuing(_, _) | LookingUp(_, _) => true
  }

  /** No revocation of the user since its epoch was read at issuance, none of everybody since the global one was. */
  ghost predicate Unrevoked(revocations: seq<Revocation>, a: Acceptance)
  {
    && a.stored.userAt <= a.userAt <= |revocations|
    && a.stored.allAt <= a.allAt <= |revocations|
    && OfUser(a.stored.user) !in revocations[a.stored.userAt..a.userAt]
    && OfAll !in revocations[a.stored.allAt..a.allAt]
  }

  ghost predicate Counted(keys: Keys, revocations: seq<Revocation>, user: Id)
  {
    Epoch(keys, UserEpochKey(user)) == Count(revocations, |revocations|, OfUser(user))
  }

  /** The counters count; what is stored under another key is a token that fits, and under an epoch's key none is. */
  ghost predicate KeysFit(keys: Keys, revocations: seq<Revocation>)
  {
    && (forall user :: Counted(keys, revocations, user))
    && Epoch(keys, GLOBAL_EPOCH_KEY) == Count(revocations, |revocations|, OfAll)
    && (forall k :: k in keys ==> if IsEpochKey(k) then keys[k].Counter?
                                  else keys[k].Token? && StoredFits(revocations, keys[k].stored))
  }

  ghost predicate Fits(s: Sessions)
  {
    && KeysFit(s.keys, s.revocations)
    && (forall c :: c in s.calls ==> CallFits(s.revocations, s.calls[c]))
    && (forall i :: 0 <= i < |s.accepted| ==> Unrevoked(s.revocations, s.accepted[i]))
  }

  lemma {:induction false} StillFits(revocations: seq<Revocation>, r: Revocation)
    ensures forall stored :: StoredFits(revocations, stored) ==> StoredFits(revocations + [r], stored)
    ensures forall call :: CallFits(revocations, call) ==> CallFits(revocations + [r], call)
    ensures forall a :: Unrevoked(revocations, a) ==> Unrevoked(revocations + [r], a)
  {
    forall n: nat, q | n <= |revocations| ensures Count(revocations + [r], n, q) == Count(revocations, n, q) {
      CountOfPrefix(revocations, [r], n, q);
    }
    forall a | Unrevoked(revocations, a) ensures Unrevoked(revocations + [r], a) {
      assert (revocations + [r])[a.stored.userAt..a.userAt] == revocations[a.stored.userAt..a.userAt];
      assert (revocations + [r])[a.stored.allAt..a.allAt] == revocations[a.stored.allAt..a.allAt];
    }
  }

  lemma {:induction false} CountMore(revocations: seq<Revocation>, r: Revocation, q: Revocation)
    ensures Count(revocations + [r], |revocations + [r]|, q)
            == Count(revocations, |revocations|, q) + if q == r then 1 else 0
  {
    CountOfPrefix(revocations, [r], |revocations|, q);
  }

  lemma {:induction false} BumpedCounts(keys: Keys, revocations: seq<Revocation>, r: Revocation, user: Id)
    requires Counted(keys, revocations, user)
    ensures Counted(Bumped(keys, TokenKey(NameOf(r))), revocations + [r], user)
  {
    CountMore(revocations, r, OfUser(user));
    SameUserEpoch(user, if r.OfUser? then r.user else user);
  }

  lemma {:induction false} BumpedFits(keys: Keys, revocations: seq<Revocation>, r: Revocation)
    requires KeysFit(keys, revocations)
    ensures KeysFit(Bumped(keys, TokenKey(NameOf(r))), revocations + [r])
  {
    var key := TokenKey(NameOf(r));
    var more := Bumped(keys, key);
    StillFits(revocations, r);
    forall user ensures Counted(more, revocations + [r], user) {
      BumpedCounts(keys, revocations, r, user);
    }
    CountMore(revocations, r, OfAll);
    if r.OfUser? {
      SameUserEpoch(r.user, r.user);
      assert key == UserEpochKey(r.user);
    }
    assert IsEpochKey(key);
    forall k | k in more && k != key ensures k in keys && more[k] == keys[k] {
    }
  }

  lemma {:induction false} RevokeFits(s: Sessions, e: Event)
    requires Fits(s) && (e.RevokeUserSessions? || e.RevokeAllSessions?)
    ensures Fits(Next(s, e))
  {
    var r := if e.RevokeUserSessions? then OfUser(e.user) else OfAll;
    StillFits(s.revocations, r);
    BumpedFits(s.keys, s.revocations, r);
  }

  /** Keys of tokens come and go without touching a counter. */
  lemma {:induction false} DroppedFits(keys: Keys, revocations: seq<Revocation>, key: string)
    requires KeysFit(keys, revocations) && !IsEpochKey(key)
    ensures KeysFit(keys - {key}, revocations)
  {
    var less := keys - {key};
    forall user ensures Counted(less, revocations, user) {
      assert Counted(keys, revocations, user) && UserEpochKey(user) != key;
    }
  }

  lemma {:induction false} StoredKeyFits(keys: Keys, revocations: seq<Revocation>, key: string, stored: Stored)
    requires KeysFit(keys, revocations) && !IsEpochKey(key) && StoredFits(revocations, stored)
    ensures KeysFit(keys[key := Token(stored)], revocations)
  {
    var more := keys[key := Token(stored)];
    forall user ensures Counted(more, revocations, user) {
      assert Counted(keys, revocations, user) && UserEpochKey(user) != key;
    }
    forall k | k in more && k != key ensures k in keys && more[k] == keys[k] {
    }
  }

  /** The comparison: equal epochs are equal counts, so nothing was revoked between the reads. */
  lemma {:induction false} CheckFits(s: Sessions, call: nat)
    requires Fits(s) && call in s.calls && s.calls[call].CheckingKnown?
    ensures Fits(Next(s, ReadGlobalEpoch(call)))
  {
    var c, next := s.calls[call], Next(s, ReadGlobalEpoch(call));
    assert CallFits(s.revocations, c);
    if next.calls[call].Accepted? {
      assert Counted(s.keys, s.revocations, c.stored.user);
      EqualEpochs(s.revocations, c.stored, c.userAt);
    }
  }

  lemma {:induction false} EqualEpochs(revocations: seq<Revocation>, stored: Stored, userAt: nat)
    requires stored.userAt <= userAt <= |revocations| && stored.allAt <= |revocations|
    ensures OfUser(stored.user) !in revocations[stored.userAt..userAt] <==>
              Count(revocations, stored.userAt, OfUser(stored.user)) == Count(revocations, userAt, OfUser(stored.user))
    ensures OfAll !in revocations[stored.allAt..|revocations|] <==>
              Count(revocations, stored.allAt, OfAll) == Count(revocations, |revocations|, OfAll)
  {
    CountsAgree(revocations, stored.userAt, userAt, OfUser(stored.user));
    CountsAgree(revocations, stored.allAt, |revocations|, OfAll);
  }

  lemma {:induction false} ReadFits(s: Sessions, call: nat)
    requires Fits(s) && Enabled(s, ReadUserEpoch(call))
    ensures Fits(Next(s, ReadUserEpoch(call)))
  {
    var c := s.calls[call];
    assert CallFits(s.revocations, c);
    if c.Issuing? {
      assert Counted(s.keys, s.revocations, c.user);
    } else {
      assert Counted(s.keys, s.revocations, c.stored.user);
    }
  }

  lemma {:induction false} StepFits(s: Sessions, e: Event)
    requires Fits(s) && Enabled(s, e) && Presents(e)
    ensures Fits(Next(s, e))
  {
    match e {
      case RevokeUserSessions(_) => RevokeFits(s, e);
      case RevokeAllSessions => RevokeFits(s, e);
      case ReadGlobalEpoch(call) =>
        assert CallFits(s.revocations, s.calls[call]);
        if s.calls[call].CheckingKnown? {
          CheckFits(s, call);
        }
      case ReadUserEpoch(call) => ReadFits(s, call);
      case StoreToken(call, token) =>
        assert CallFits(s.revocations, s.calls[call]);
        NamesEpochMeans(token);
        StoredKeyFits(s.keys, s.revocations, TokenKey(token), s.calls[call].stored);
      case Refresh(_, token) => NamesEpochMeans(token);
      case DeleteToken(call) =>
        assert CallFits(s.revocations, s.calls[call]);
        NamesEpochMeans(s.calls[call].token);
        DroppedFits(s.keys, s.revocations, TokenKey(s.calls[call].token));
      case Logout(token) =>
        NamesEpochMeans(token);
        DroppedFits(s.keys, s.revocations, TokenKey(token));
      case Expire(key) => DroppedFits(s.keys, s.revocations, key);
      case Login(_, _) =>
      case FindUser(_, _) =>
      case Die(_) =>
    }
  }

  lemma {:induction false} RunFits(s: Sessions, run: seq<Event>)
    requires Fits(s) && PresentsTokens(run)
    ensures Fits(After(s, run))
  {
    if run != [] {
      assert run[|run| - 1] in run;
      RunFits(s, run[..|run| - 1]);
      var before := After(s, run[..|run| - 1]);
      if Enabled(before, run[|run| - 1]) {
        StepFits(before, run[|run| - 1]);
      }
    }
  }

  lemma {:induction false} NobodyFits()
    ensures Fits(NOBODY)
  {
  }

  /**
   * In every interleaving in which no refresh or logout presents a name of an epoch: a refresh that passes its check
   * was not overtaken. Between the read of the user's epoch at issuance and its read by the check that user was not
   * revoked, and likewise nobody for the global epoch.
   */
  lemma {:induction false} PassedChecksAreUnrevoked(run: seq<Event>, i: nat)
    requires PresentsTokens(run) && i < |After(NOBODY, run).accepted|
    ensures var s := After(NOBODY, run);
      var a := s.accepted[i];
      && a.stored.userAt <= a.userAt <= |s.revocations| && a.stored.allAt <= a.allAt <= |s.revocations|
      && (forall k :: a.stored.userAt <= k < a.userAt ==> s.revocations[k] != OfUser(a.stored.user))
      && (forall k :: a.stored.allAt <= k < a.allAt ==> s.revocations[k] != OfAll)
  {
    NobodyFits();
    RunFits(NOBODY, run);
    var s := After(NOBODY, run);
    var a := s.accepted[i];
    assert Unrevoked(s.revocations, a);
    forall k | a.stored.userAt <= k < a.userAt ensures s.revocations[k] != OfUser(a.stored.user) {
      assert s.revocations[a.stored.userAt..a.userAt][k - a.stored.userAt] == s.revocations[k];
    }
    forall k | a.stored.allAt <= k < a.allAt ensures s.revocations[k] != OfAll {
      assert s.revocations[a.stored.allAt..a.allAt][k - a.stored.allAt] == s.revocations[k];
    }
  }

  /**
   * In such runs the check is exact: at the read of the global epoch, a refresh passes precisely when neither its user
   * nor everybody was revoked between the reads it compares.
   */
  lemma {:induction false} CheckIsExact(run: seq<Event>, call: nat)
    requires PresentsTokens(run)
    requires call in After(NOBODY, run).calls && After(NOBODY, run).calls[call].CheckingKnown?
    ensures var s := After(NOBODY, run);
      var c := s.calls[call];
      && c.stored.userAt <= c.userAt <= |s.revocations| && c.stored.allAt <= |s.revocations|
      && (Next(s, ReadGlobalEpoch(call)).calls[call].Accepted? <==>
            && OfUser(c.stored.user) !in s.revocations[c.stored.userAt..c.userAt]
            && OfAll !in s.revocations[c.stored.allAt..])
  {
    NobodyFits();
    RunFits(NOBODY, run);
    var s := After(NOBODY, run);
    var c := s.calls[call];
    assert CallFits(s.revocations, c);
    CountsAgree(s.revocations, c.stored.userAt, c.userAt, OfUser(c.stored.user));
    CountsAgree(s.revocations, c.stored.allAt, |s.revocations|, OfAll);
    assert s.revocations[c.stored.allAt..] == s.revocations[c.stored.allAt..|s.revocations|];
  }

  // ---- A name of an epoch, presented as a token ----

  lemma {:induction false} Concat(s: Sessions, run: seq<Event>, more: seq<Event>)
    ensures After(s, run + more) == After(After(s, run), more)
  {
    if more == [] {
      assert run + more == run;
    } else {
      var last := |more| - 1;
      assert (run + more)[..|run| + last] == run + more[..last];
      Concat(s, run, more[..last]);
    }
  }

  lemma {:induction false} Last(s: Sessions, run: seq<Event>, e: Event)
    ensures After(s, run + [e]) == Then(After(s, run), e)
  {
    assert (run + [e])[..|run|] == run;
  }

  lemma {:induction false} One(s: Sessions, a: Event)
    ensures After(s, [a]) == Then(s, a)
  {
    Last(s, [], a);
    assert [] + [a] == [a];
  }

  lemma {:induction false} Three(s: Sessions, a: Event, b: Event, c: Event)
    ensures After(s, [a, b, c]) == Then(Then(Then(s, a), b), c)
  {
    One(s, a);
    Last(s, [a], b);
    Last(s, [a, b], c);
    assert [a] + [b] == [a, b] && [a, b] + [c] == [a, b, c];
  }

  lemma {:induction false} Four(s: Sessions, a: Event, b: Event, c: Event, d: Event)
    ensures After(s, [a, b, c, d]) == Then(Then(Then(Then(s, a), b), c), d)
  {
    Three(s, a, b, c);
    Last(s, [a, b, c], d);
    assert [a, b, c] + [d] == [a, b, c, d];
  }

  function Issue(user: Id, token: Id): seq<Event>
  {
    [Login(0, user), ReadUserEpoch(0), ReadGlobalEpoch(0), StoreToken(0, token)]
  }

  function Present(token: Id): seq<Event>
  {
    [Refresh(0, token), ReadUserEpoch(0), ReadGlobalEpoch(0)]
  }

  /** Either call ends with the deletion of the key the name spells. */
  function Forget(name: Id, byLogout: bool): seq<Event>
  {
    if byLogout then [Logout(name)] else Present(name) + [DeleteToken(0)]
  }

  function Revoke(r: Revocation): Event
  {
    if r.OfUser? then RevokeUserSessions(r.user) else RevokeAllSessions
  }

  lemma {:induction false} Issued(user: Id, token: Id)
    requires !NamesEpoch(token)
    ensures After(NOBODY, Issue(user, token))
            == NOBODY.(keys := map[TokenKey(token) := Token(Stored(user, 0, 0, 0, 0, 0))], owners := [user])
  {
    Four(NOBODY, Login(0, user), ReadUserEpoch(0), ReadGlobalEpoch(0), StoreToken(0, token));
  }

  lemma {:induction false} Forgotten(s: Sessions, name: Id, byLogout: bool)
    requires s.calls == map[] && TokenKey(name) in s.keys && s.keys[TokenKey(name)].Counter?
    ensures After(s, Forget(name, byLogout)) == s.(keys := s.keys - {TokenKey(name)})
  {
    One(s, Logout(name));
    CheckOfCounter(s, 0, name);
    assert Present(name) + [DeleteToken(0)] == [Refresh(0, name), ReadUserEpoch(0), ReadGlobalEpoch(0), DeleteToken(0)];
  }

  lemma {:induction false} Passed(s: Sessions, token: Id, stored: Stored)
    requires s.calls == map[] && TokenKey(token) in s.keys && s.keys[TokenKey(token)] == Token(stored)
    requires stored.userEpoch == Epoch(s.keys, UserEpochKey(stored.user))
    requires stored.globalEpoch == Epoch(s.keys, GLOBAL_EPOCH_KEY)
    ensures After(s, Present(token)).accepted
            == s.accepted + [Acceptance(token, stored, |s.revocations|, |s.revocations|)]
    ensures After(s, Present(token)).revocations == s.revocations
  {
    Three(s, Refresh(0, token), ReadUserEpoch(0), ReadGlobalEpoch(0));
  }

  /**
   * The condition is needed, for every user, both kinds of revocation and both calls: once the name of the bumped
   * epoch has been presented as a token, a session issued before the revocation passes its check again.
   */
  lemma {:induction false} ForgottenEpochPasses(user: Id, token: Id, r: Revocation, byLogout: bool)
    requires !NamesEpoch(token) && (r == OfAll || r == OfUser(user))
    ensures var s := After(NOBODY, Issue(user, token) + [Revoke(r)] + Forget(NameOf(r), byLogout) + Present(token));
      s.revocations == [r] && s.accepted == [Acceptance(token, Stored(user, 0, 0, 0, 0, 0), 1, 1)]
  {
    var start, forget := Issue(user, token) + [Revoke(r)], Forget(NameOf(r), byLogout);
    Revoked(user, token, r);
    var revoked := After(NOBODY, start);
    Forgotten(revoked, NameOf(r), byLogout);
    Concat(NOBODY, start, forget);
    NamesEpochMeans(token);
    SameUserEpoch(user, user);
    var forgotten := After(NOBODY, start + forget);
    assert TokenKey(token) in forgotten.keys;
    Passed(forgotten, token, Stored(user, 0, 0, 0, 0, 0));
    Concat(NOBODY, start + forget, Present(token));
  }

  lemma {:induction false} Revoked(user: Id, token: Id, r: Revocation)
    requires !NamesEpoch(token) && (r == OfAll || r == OfUser(user))
    ensures After(NOBODY, Issue(user, token) + [Revoke(r)])
            == NOBODY.(keys := map[TokenKey(token) := Token(Stored(user, 0, 0, 0, 0, 0)),
                                   TokenKey(NameOf(r)) := Counter(1)],
                       revocations := [r], owners := [user])
    ensures TokenKey(token) != TokenKey(NameOf(r))
  {
    NamesEpochMeans(token);
    SameToken(token, NameOf(r));
    assert NamesEpoch(NameOf(r)) by { assert EPOCH_OF_USER <= EPOCH_OF_USER + user; }
    Issued(user, token);
    var issued := After(NOBODY, Issue(user, token));
    One(issued, Revoke(r));
    Concat(NOBODY, Issue(user, token), [Revoke(r)]);
  }

  /** Of all names of epochs, the run presents at most this one. */
  predicate PresentsOnly(run: seq<Event>, name: Id)
  {
    forall e :: e in run ==> Presents(e) || (e.Refresh? && e.token == name) || (e.Logout? && e.token == name)
  }

  /** However often the name is presented, no check passes that a revocation overtook. */
  ghost predicate SafeToPresent(name: Id)
  {
    forall run: seq<Event>, i: nat :: PresentsOnly(run, name) && i < |After(NOBODY, run).accepted| ==>
      Unrevoked(After(NOBODY, run).revocations, After(NOBODY, run).accepted[i])
  }

  /** Both halves in one: a presented name is harmless exactly when it names no epoch. */
  lemma {:induction false} SafeToPresentIff(name: Id)
    ensures SafeToPresent(name) <==> !NamesEpoch(name)
  {
    if NamesEpoch(name) {
      EpochNameIsUnsafe(name);
    } else {
      forall run: seq<Event>, i: nat | PresentsOnly(run, name) && i < |After(NOBODY, run).accepted|
        ensures Unrevoked(After(NOBODY, run).revocations, After(NOBODY, run).accepted[i])
      {
        NobodyFits();
        RunFits(NOBODY, run);
      }
    }
  }

  lemma {:induction false} EpochNameIsUnsafe(name: Id)
    requires NamesEpoch(name)
    ensures !SafeToPresent(name)
  {
    var user, r := "", OfAll;
    if name != EPOCH_OF_ALL {
      user := name[|EPOCH_OF_USER|..];
      r := OfUser(user);
      assert name == EPOCH_OF_USER + user;
    }
    ForgottenEpochPasses(user, "", r, true);
    var run := Issue(user, "") + [Revoke(r)] + Forget(name, true) + Present("");
    var s := After(NOBODY, run);
    assert PresentsOnly(run, name);
    assert s.revocations[0..1] == [r];
    assert !Unrevoked(s.revocations, s.accepted[0]);
  }

  // ---- A call without interruption ----

  /** The commands of one refresh; those it does not get to are not possible and do nothing. */
  function RefreshCommands(call: nat, token: Id, drawn: Id, found: bool): seq<Event>
  {
    CheckCommands(call, token) + [FindUser(call, found), ReadUserEpoch(call), ReadGlobalEpoch(call),
                                  StoreToken(call, drawn)]
  }

  /** Those up to the deletion of the presented key. */
  function CheckCommands(call: nat, token: Id): seq<Event>
  {
    [Refresh(call, token), ReadUserEpoch(call), ReadGlobalEpoch(call), DeleteToken(call)]
  }

  /** The presented key holds a token under the current epochs. */
  predicate Valid(keys: Keys, token: Id)
  {
    var key := TokenKey(token);
    && key in keys && keys[key].Token?
    && keys[key].stored.userEpoch == Epoch(keys, UserEpochKey(keys[key].stored.user))
    && keys[key].stored.globalEpoch == Epoch(keys, GLOBAL_EPOCH_KEY)
  }

  lemma {:induction false} CheckOfNothing(s: Sessions, call: nat, token: Id)
    requires call !in s.calls && TokenKey(token) !in s.keys
    ensures After(s, CheckCommands(call, token)) == s
  {
    Four(s, Refresh(call, token), ReadUserEpoch(call), ReadGlobalEpoch(call), DeleteToken(call));
  }

  lemma {:induction false} CheckOfCounter(s: Sessions, call: nat, token: Id)
    requires call !in s.calls && TokenKey(token) in s.keys && s.keys[TokenKey(token)].Counter?
    ensures After(s, CheckCommands(call, token)) == s.(keys := s.keys - {TokenKey(token)})
  {
    Four(s, Refresh(call, token), ReadUserEpoch(call), ReadGlobalEpoch(call), DeleteToken(call));
    assert s.calls[call := Refused(token)] - {call} == s.calls;
  }

  lemma {:induction false} CheckOfToken(s: Sessions, call: nat, token: Id)
    requires call !in s.calls && TokenKey(token) in s.keys && s.keys[TokenKey(token)].Token?
    ensures var after, stored := After(s, CheckCommands(call, token)), s.keys[TokenKey(token)].stored;
      && after.keys == s.keys - {TokenKey(token)} && after.revocations == s.revocations
      && after.calls == if Valid(s.keys, token) then s.calls[call := LookingUp(stored.user, stored.line)] else s.calls
  {
    Four(s, Refresh(call, token), ReadUserEpoch(call), ReadGlobalEpoch(call), DeleteToken(call));
    var stored := s.keys[TokenKey(token)].stored;
    var fetched := Then(s, Refresh(call, token));
    assert fetched == s.(calls := s.calls[call := Checking(token, stored)]);
    var read := Then(fetched, ReadUserEpoch(call));
    var userEpoch, now := Epoch(s.keys, UserEpochKey(stored.user)), |s.revocations|;
    assert read == s.(calls := s.calls[call := CheckingKnown(token, stored, userEpoch, now)]);
    var checked := Then(read, ReadGlobalEpoch(call));
    assert checked.calls == s.calls[call := if Valid(s.keys, token) then Accepted(token, stored.user, stored.line)
                                            else Refused(token)];
    assert s.calls[call := Refused(token)] - {call} == s.calls;
  }

  lemma {:induction false} CheckWithoutInterruption(s: Sessions, call: nat, token: Id)
    requires call !in s.calls
    ensures var after := After(s, CheckCommands(call, token));
      && after.keys == s.keys - {TokenKey(token)} && after.revocations == s.revocations
      && after.calls == if Valid(s.keys, token)
                        then var stored := s.keys[TokenKey(token)].stored;
                             s.calls[call := LookingUp(stored.user, stored.line)]
                        else s.calls
  {
    if TokenKey(token) !in s.keys {
      CheckOfNothing(s, call, token);
      assert s.keys - {TokenKey(token)} == s.keys;
    } else if s.keys[TokenKey(token)].Counter? {
      CheckOfCounter(s, call, token);
    } else {
      CheckOfToken(s, call, token);
    }
  }

  /**
   * The commands of a refresh, run without interruption, are the refresh taken as one step: the presented key is gone;
   * and if it held a token under the current epochs, of a user who is found, the drawn token is stored for that user
   * and line, with these epochs.
   */
  lemma {:induction false} RefreshWithoutInterruption(s: Sessions, call: nat, token: Id, drawn: Id, found: bool)
    requires call !in s.calls && !NamesEpoch(token) && !NamesEpoch(drawn) && TokenKey(drawn) !in s.keys
    ensures var after, key := After(s, RefreshCommands(call, token, drawn, found)), TokenKey(token);
      && after.calls == s.calls && after.revocations == s.revocations
      && (if Valid(s.keys, token) && found then
            && TokenKey(drawn) in after.keys && after.keys[TokenKey(drawn)].Token?
            && after.keys == (s.keys - {key})[TokenKey(drawn) := after.keys[TokenKey(drawn)]]
            && var was, now := s.keys[key].stored, after.keys[TokenKey(drawn)].stored;
            && now.user == was.user && now.line == was.line
            && now.userEpoch == was.userEpoch && now.globalEpoch == was.globalEpoch
          else after.keys == s.keys - {key})
  {
    var check := CheckCommands(call, token);
    CheckWithoutInterruption(s, call, token);
    var mid := After(s, check);
    var rest := [FindUser(call, found), ReadUserEpoch(call), ReadGlobalEpoch(call), StoreToken(call, drawn)];
    Concat(s, check, rest);
    Four(mid, rest[0], rest[1], rest[2], rest[3]);
    NamesEpochMeans(token);
    if Valid(s.keys, token) {
      assert IsEpochKey(UserEpochKey(s.keys[TokenKey(token)].stored.user));
    }
  }
}
