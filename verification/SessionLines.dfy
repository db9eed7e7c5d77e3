/** A session's line: a login, and every token that refreshes hand on from it. When does a revocation end it? */
module SessionLines {
  import opened Common
  import opened SessionKeys
  import opened RevocationEpochs

  predicate OfLine(call: Call, line: nat)
  {
    match call
    case Issuing(_, l) => l == line
    case IssuingKnown(_, _, _, l) => l == line
    case IssuingReady(stored) => stored.line == line
    case Checking(_, stored) => stored.line == line
    case CheckingKnown(_, stored, _, _) => stored.line == line
    case Accepted(_, _, l) => l == line
    case LookingUp(_, l) => l == line
    case Mistaken(_) | MistakenKnown(_) | Refused(_) => false
  }

  /**
   * The call carries its line across the revocation: it has passed its check, or will, and has not read the epoch
   * that the revocation bumps.
   */
  predicate Crosses(keys: Keys, r: Revocation, call: Call)
  {
    match call
    case Accepted(_, _, _) | LookingUp(_, _) | Issuing(_, _) => true
    case IssuingKnown(user, userEpoch, _, _) => r.OfAll? && userEpoch == Epoch(keys, UserEpochKey(user))
    case CheckingKnown(_, stored, userEpoch, _) =>
      r.OfUser? && stored.userEpoch == userEpoch && stored.globalEpoch == Epoch(keys, GLOBAL_EPOCH_KEY)
    case IssuingReady(_) | Checking(_, _) | Mistaken(_) | MistakenKnown(_) | Refused(_) => false
  }

  /** Some call in flight carries the line across. */
  ghost predicate Crossed(s: Sessions, r: Revocation, line: nat)
  {
    exists c :: c in s.calls && OfLine(s.calls[c], line) && Crosses(s.keys, r, s.calls[c])
  }

  /** A check of the line passes in this run. */
  ghost predicate PassesIn(s: Sessions, run: seq<Event>, line: nat)
  {
    exists i :: |s.accepted| <= i < |After(s, run).accepted| && After(s, run).accepted[i].stored.line == line
  }

  /** From here the line can pass a check again, without anybody presenting a name of an epoch. */
  ghost predicate LivesOn(s: Sessions, line: nat)
  {
    exists run :: PresentsTokens(run) && PassesIn(s, run, line)
  }

  // ---- A line belongs to the user who logged in ----

  predicate Owned(owners: seq<Id>, line: nat, user: Id)
  {
    line < |owners| && owners[line] == user
  }

  predicate CallOwned(owners: seq<Id>, call: Call)
  {
    match call
    case Issuing(user, line) => Owned(owners, line, user)
    case IssuingKnown(user, _, _, line) => Owned(owners, line, user)
    case IssuingReady(stored) => Owned(owners, stored.line, stored.user)
    case Checking(_, stored) => Owned(owners, stored.line, stored.user)
    case CheckingKnown(_, stored, _, _) => Owned(owners, stored.line, stored.user)
    case Accepted(_, user, line) => Owned(owners, line, user)
    case LookingUp(user, line) => Owned(owners, line, user)
    case Mistaken(_) | MistakenKnown(_) | Refused(_) => true
  }

  ghost predicate AllOwned(s: Sessions)
  {
    && (forall k :: k in s.keys && s.keys[k].Token? ==> Owned(s.owners, s.keys[k].stored.line, s.keys[k].stored.user))
    && (forall c :: c in s.calls ==> CallOwned(s.owners, s.calls[c]))
  }

  lemma {:induction false} StepOwned(s: Sessions, e: Event)
    requires AllOwned(s) && Enabled(s, e)
    ensures AllOwned(Next(s, e))
  {
    match e {
      case ReadUserEpoch(call) => assert CallOwned(s.owners, s.calls[call]);
      case ReadGlobalEpoch(call) => assert CallOwned(s.owners, s.calls[call]);
      case StoreToken(call, _) => assert CallOwned(s.owners, s.calls[call]);
      case DeleteToken(call) => assert CallOwned(s.owners, s.calls[call]);
      case FindUser(call, _) => assert CallOwned(s.owners, s.calls[call]);
      case Login(_, user) =>
        forall call | CallOwned(s.owners, call) ensures CallOwned(s.owners + [user], call) {
        }
      case Refresh(_, _) =>
      case Logout(_) =>
      case Expire(_) =>
      case Die(_) =>
      case RevokeUserSessions(_) =>
      case RevokeAllSessions =>
    }
  }

  lemma {:induction false} RunOwned(run: seq<Event>)
    ensures AllOwned(After(NOBODY, run))
  {
    if run != [] {
      RunOwned(run[..|run| - 1]);
      var before := After(NOBODY, run[..|run| - 1]);
      if Enabled(before, run[|run| - 1]) {
        StepOwned(before, run[|run| - 1]);
      }
    }
  }

  // ---- A line without a crossing call is dead ----

  /** Some epoch has moved past what the token says. */
  predicate Behind(keys: Keys, stored: Stored)
  {
    || stored.userEpoch < Epoch(keys, UserEpochKey(stored.user))
    || stored.globalEpoch < Epoch(keys, GLOBAL_EPOCH_KEY)
  }

  predicate CallDead(keys: Keys, call: Call)
  {
    match call
    case Issuing(_, _) | Accepted(_, _, _) | LookingUp(_, _) => false
    case IssuingKnown(user, userEpoch, _, _) => userEpoch < Epoch(keys, UserEpochKey(user))
    case IssuingReady(stored) => Behind(keys, stored)
    case Checking(_, stored) => Behind(keys, stored)
    case CheckingKnown(_, stored, userEpoch, _) =>
      stored.userEpoch != userEpoch || stored.globalEpoch < Epoch(keys, GLOBAL_EPOCH_KEY)
    case Mistaken(_) | MistakenKnown(_) | Refused(_) => true
  }

  ghost predicate Dead(s: Sessions, line: nat)
  {
    && line < |s.owners|
    && (forall k :: k in s.keys && s.keys[k].Token? && s.keys[k].stored.line == line ==>
          Behind(s.keys, s.keys[k].stored))
    && (forall c :: c in s.calls && OfLine(s.calls[c], line) ==> CallDead(s.keys, s.calls[c]))
  }

  ghost predicate EpochsGrow(keys: Keys, later: Keys)
  {
    && (forall user :: Epoch(keys, UserEpochKey(user)) <= Epoch(later, UserEpochKey(user)))
    && Epoch(keys, GLOBAL_EPOCH_KEY) <= Epoch(later, GLOBAL_EPOCH_KEY)
  }

  lemma {:induction false} FittingEpochsGrow(keys: Keys, later: Keys, revocations: seq<Revocation>, r: Revocation)
    requires KeysFit(keys, revocations) && (KeysFit(later, revocations) || KeysFit(later, revocations + [r]))
    ensures EpochsGrow(keys, later)
  {
    forall user ensures Epoch(keys, UserEpochKey(user)) <= Epoch(later, UserEpochKey(user)) {
      CountMore(revocations, r, OfUser(user));
      assert Counted(keys, revocations, user);
      assert Counted(later, revocations, user) || Counted(later, revocations + [r], user);
    }
    CountMore(revocations, r, OfAll);
  }

  lemma {:induction false} StepGrows(s: Sessions, e: Event)
    requires Fits(s) && Enabled(s, e) && Presents(e)
    ensures EpochsGrow(s.keys, Next(s, e).keys)
  {
    StepFits(s, e);
    FittingEpochsGrow(s.keys, Next(s, e).keys, s.revocations, if e.RevokeUserSessions? then OfUser(e.user) else OfAll);
  }

  lemma {:induction false} StaysDead(keys: Keys, later: Keys)
    requires EpochsGrow(keys, later)
    ensures forall stored :: Behind(keys, stored) ==> Behind(later, stored)
    ensures forall call :: CallDead(keys, call) ==> CallDead(later, call)
  {
    forall stored | Behind(keys, stored) ensures Behind(later, stored) {
      assert Epoch(keys, UserEpochKey(stored.user)) <= Epoch(later, UserEpochKey(stored.user));
    }
    forall call | CallDead(keys, call) ensures CallDead(later, call) {
      if call.IssuingKnown? {
        assert Epoch(keys, UserEpochKey(call.user)) <= Epoch(later, UserEpochKey(call.user));
      }
    }
  }

  /** Nothing a dead line does brings it back, and none of its checks passes. */
  lemma {:induction false} StepDead(s: Sessions, e: Event, line: nat)
    requires Fits(s) && Enabled(s, e) && Presents(e) && Dead(s, line)
    ensures Dead(Next(s, e), line)
    ensures var accepted := Next(s, e).accepted;
      |s.accepted| <= |accepted| && forall i :: |s.accepted| <= i < |accepted| ==> accepted[i].stored.line != line
  {
    StepGrows(s, e);
    StaysDead(s.keys, Next(s, e).keys);
    if e.ReadGlobalEpoch? && OfLine(s.calls[e.call], line) {
      assert CallDead(s.keys, s.calls[e.call]);
      assert CallFits(s.revocations, s.calls[e.call]);
    }
  }

  lemma {:induction false} DeadForGood(s: Sessions, run: seq<Event>, line: nat)
    requires Fits(s) && Dead(s, line) && PresentsTokens(run)
    ensures Fits(After(s, run)) && Dead(After(s, run), line)
    ensures |s.accepted| <= |After(s, run).accepted| && !PassesIn(s, run, line)
  {
    if run != [] {
      var init, e := run[..|run| - 1], run[|run| - 1];
      assert e in run;
      DeadForGood(s, init, line);
      var before := After(s, init);
      if Enabled(before, e) {
        StepFits(before, e);
        StepDead(before, e, line);
        OldAcceptances(before, e);
      }
    }
  }

  lemma {:induction false} OldAcceptances(s: Sessions, e: Event)
    requires Enabled(s, e)
    ensures s.accepted <= Next(s, e).accepted
  {
  }

  /** The revocation kills the line unless a call carries it across. */
  lemma {:induction false} Killed(s: Sessions, r: Revocation, line: nat)
    requires Fits(s) && AllOwned(s) && line < |s.owners| && (r == OfAll || r == OfUser(s.owners[line]))
    requires !Crossed(s, r, line)
    ensures Dead(Next(s, Revoke(r)), line)
  {
    var t := Next(s, Revoke(r));
    StepFits(s, Revoke(r));
    forall k | k in t.keys && t.keys[k].Token? && t.keys[k].stored.line == line
      ensures Behind(t.keys, t.keys[k].stored)
    {
      TokenFallsBehind(s, r, s.keys[k].stored);
    }
    forall c | c in t.calls && OfLine(t.calls[c], line) ensures CallDead(t.keys, t.calls[c]) {
      CallFallsBehind(s, r, c);
    }
  }

  /** What the two epochs say after the revocation. */
  lemma {:induction false} EpochsAfter(s: Sessions, r: Revocation, user: Id)
    requires Fits(s)
    ensures var keys := Next(s, Revoke(r)).keys;
      && Epoch(keys, UserEpochKey(user)) == Epoch(s.keys, UserEpochKey(user)) + (if r == OfUser(user) then 1 else 0)
      && Epoch(keys, GLOBAL_EPOCH_KEY) == Epoch(s.keys, GLOBAL_EPOCH_KEY) + (if r == OfAll then 1 else 0)
  {
    StepFits(s, Revoke(r));
    CountMore(s.revocations, r, OfUser(user));
    CountMore(s.revocations, r, OfAll);
    assert Counted(s.keys, s.revocations, user);
    assert Counted(Next(s, Revoke(r)).keys, s.revocations + [r], user);
  }

  /** No token is ahead of the epochs. */
  lemma {:induction false} NotAhead(s: Sessions, stored: Stored)
    requires Fits(s) && StoredFits(s.revocations, stored)
    ensures stored.userEpoch <= Epoch(s.keys, UserEpochKey(stored.user))
    ensures stored.globalEpoch <= Epoch(s.keys, GLOBAL_EPOCH_KEY)
  {
    assert Counted(s.keys, s.revocations, stored.user);
    CountsAgree(s.revocations, stored.userAt, |s.revocations|, OfUser(stored.user));
    CountsAgree(s.revocations, stored.allAt, |s.revocations|, OfAll);
  }

  lemma {:induction false} TokenFallsBehind(s: Sessions, r: Revocation, stored: Stored)
    requires Fits(s) && StoredFits(s.revocations, stored) && (r == OfAll || r == OfUser(stored.user))
    ensures Behind(Next(s, Revoke(r)).keys, stored)
  {
    NotAhead(s, stored);
    EpochsAfter(s, r, stored.user);
  }

  lemma {:induction false} CallFallsBehind(s: Sessions, r: Revocation, c: nat)
    requires Fits(s) && AllOwned(s) && c in s.calls
    requires r == OfAll || exists line :: OfLine(s.calls[c], line) && Owned(s.owners, line, r.user)
    requires !Crosses(s.keys, r, s.calls[c])
    ensures CallDead(Next(s, Revoke(r)).keys, s.calls[c])
  {
    var call := s.calls[c];
    assert CallFits(s.revocations, call) && CallOwned(s.owners, call);
    match call {
      case IssuingKnown(user, userEpoch, userAt, _) =>
        EpochsAfter(s, r, user);
        assert Counted(s.keys, s.revocations, user);
        CountsAgree(s.revocations, userAt, |s.revocations|, OfUser(user));
      case IssuingReady(stored) => TokenFallsBehind(s, r, stored);
      case Checking(_, stored) => TokenFallsBehind(s, r, stored);
      case CheckingKnown(_, stored, _, _) =>
        NotAhead(s, stored);
        EpochsAfter(s, r, stored.user);
      case Mistaken(_) =>
      case MistakenKnown(_) =>
      case Refused(_) =>
      case Issuing(_, _) =>
      case Accepted(_, _, _) =>
      case LookingUp(_, _) =>
    }
  }

  // ---- A crossing call brings the line through ----

  lemma {:induction false} OneMore(s: Sessions, e: Event, line: nat)
    requires Presents(e) && LivesOn(Then(s, e), line)
    ensures LivesOn(s, line)
  {
    var run :| PresentsTokens(run) && PassesIn(Then(s, e), run, line);
    Concat(s, [e], run);
    Last(s, [], e);
    assert [] + [e] == [e];
    assert PresentsTokens([e] + run);
    if Enabled(s, e) {
      OldAcceptances(s, e);
    }
    var i :| |Then(s, e).accepted| <= i < |After(Then(s, e), run).accepted|
      && After(Then(s, e), run).accepted[i].stored.line == line;
    assert After(s, [e] + run).accepted[i].stored.line == line;
    assert PassesIn(s, [e] + run, line);
  }

  /** The token carries the current epochs. */
  predicate UpToDate(keys: Keys, stored: Stored)
  {
    && stored.userEpoch == Epoch(keys, UserEpochKey(stored.user))
    && stored.globalEpoch == Epoch(keys, GLOBAL_EPOCH_KEY)
  }

  lemma {:induction false} CheckPasses(s: Sessions, c: nat)
    requires c in s.calls && s.calls[c].CheckingKnown? && s.calls[c].stored.userEpoch == s.calls[c].userEpoch
    requires s.calls[c].stored.globalEpoch == Epoch(s.keys, GLOBAL_EPOCH_KEY)
    ensures LivesOn(s, s.calls[c].stored.line)
  {
    var run := [ReadGlobalEpoch(c)];
    Last(s, [], ReadGlobalEpoch(c));
    assert [] + run == run;
    assert After(s, run).accepted[|s.accepted|].stored.line == s.calls[c].stored.line;
    assert PassesIn(s, run, s.calls[c].stored.line);
    assert PresentsTokens(run);
  }

  lemma {:induction false} TokenPasses(s: Sessions, c: nat, token: Id, stored: Stored)
    requires c !in s.calls && TokenKey(token) in s.keys && s.keys[TokenKey(token)] == Token(stored)
    requires UpToDate(s.keys, stored) && !NamesEpoch(token)
    ensures LivesOn(s, stored.line)
  {
    var checking := Then(s, Refresh(c, token));
    var known := Then(checking, ReadUserEpoch(c));
    CheckPasses(known, c);
    OneMore(checking, ReadUserEpoch(c), stored.line);
    OneMore(s, Refresh(c, token), stored.line);
  }

  lemma {:induction false} ReadyPasses(s: Sessions, c: nat, token: Id)
    requires c in s.calls && s.calls[c].IssuingReady? && UpToDate(s.keys, s.calls[c].stored)
    requires TokenKey(token) !in s.keys && !NamesEpoch(token)
    ensures LivesOn(s, s.calls[c].stored.line)
  {
    var stored := s.calls[c].stored;
    var next := Then(s, StoreToken(c, token));
    NamesEpochMeans(token);
    assert IsEpochKey(UserEpochKey(stored.user));
    TokenPasses(next, c, token, stored);
    OneMore(s, StoreToken(c, token), stored.line);
  }

  lemma {:induction false} KnownPasses(s: Sessions, c: nat, token: Id)
    requires c in s.calls && s.calls[c].IssuingKnown?
    requires s.calls[c].userEpoch == Epoch(s.keys, UserEpochKey(s.calls[c].user))
    requires TokenKey(token) !in s.keys && !NamesEpoch(token)
    ensures LivesOn(s, s.calls[c].line)
  {
    ReadyPasses(Then(s, ReadGlobalEpoch(c)), c, token);
    OneMore(s, ReadGlobalEpoch(c), s.calls[c].line);
  }

  lemma {:induction false} IssuingPasses(s: Sessions, c: nat, token: Id)
    requires c in s.calls && s.calls[c].Issuing?
    requires TokenKey(token) !in s.keys && !NamesEpoch(token)
    ensures LivesOn(s, s.calls[c].line)
  {
    KnownPasses(Then(s, ReadUserEpoch(c)), c, token);
    OneMore(s, ReadUserEpoch(c), s.calls[c].line);
  }

  lemma {:induction false} LookingUpPasses(s: Sessions, c: nat, token: Id)
    requires c in s.calls && s.calls[c].LookingUp?
    requires TokenKey(token) !in s.keys && !NamesEpoch(token)
    ensures LivesOn(s, s.calls[c].line)
  {
    IssuingPasses(Then(s, FindUser(c, true)), c, token);
    OneMore(s, FindUser(c, true), s.calls[c].line);
  }

  lemma {:induction false} AcceptedPasses(s: Sessions, c: nat, token: Id)
    requires c in s.calls && s.calls[c].Accepted?
    requires TokenKey(token) !in s.keys && !NamesEpoch(token)
    ensures LivesOn(s, s.calls[c].line)
  {
    LookingUpPasses(Then(s, DeleteToken(c)), c, token);
    OneMore(s, DeleteToken(c), s.calls[c].line);
  }

  /** There is always a token to draw: any text longer than every key. */
  lemma {:induction false} Longer(keys: set<string>) returns (n: nat)
    ensures forall k :: k in keys ==> |k| < n
  {
    n := 0;
    if keys != {} {
      var k :| k in keys;
      n := Longer(keys - {k});
      n := if |k| < n then n else |k| + 1;
    }
  }

  lemma {:induction false} Drawn(keys: Keys) returns (token: Id)
    ensures TokenKey(token) !in keys && !NamesEpoch(token)
  {
    var n := Longer(keys.Keys);
    token := seq(n + 1, _ => 't');
    assert token[0] == 't';
  }

  lemma {:induction false} CarriedAcross(s: Sessions, r: Revocation, c: nat, line: nat)
    requires Fits(s) && c in s.calls && OfLine(s.calls[c], line) && Crosses(s.keys, r, s.calls[c])
    ensures LivesOn(Next(s, Revoke(r)), line)
  {
    var t, call := Next(s, Revoke(r)), s.calls[c];
    var token := Drawn(t.keys);
    match call {
      case Accepted(_, _, _) => AcceptedPasses(t, c, token);
      case LookingUp(_, _) => LookingUpPasses(t, c, token);
      case Issuing(_, _) => IssuingPasses(t, c, token);
      case IssuingKnown(user, _, _, _) =>
        EpochsAfter(s, r, user);
        KnownPasses(t, c, token);
      case CheckingKnown(_, stored, _, _) =>
        EpochsAfter(s, r, stored.user);
        CheckPasses(t, c);
    }
  }

  /**
   * A revocation of everybody, or of the line's user, ends a line that logged in before it exactly when no call of the
   * line is crossing it: past its check, or about to pass it, with the bumped epoch still to be read.
   */
  lemma {:induction false} RevocationEndsLineIff(run: seq<Event>, r: Revocation, line: nat)
    requires PresentsTokens(run) && line < |After(NOBODY, run).owners|
    requires r == OfAll || r == OfUser(After(NOBODY, run).owners[line])
    ensures LivesOn(After(NOBODY, run + [Revoke(r)]), line) <==> Crossed(After(NOBODY, run), r, line)
  {
    var s := After(NOBODY, run);
    NobodyFits();
    RunFits(NOBODY, run);
    RunOwned(run);
    Last(NOBODY, run, Revoke(r));
    var t := Next(s, Revoke(r));
    if Crossed(s, r, line) {
      var c :| c in s.calls && OfLine(s.calls[c], line) && Crosses(s.keys, r, s.calls[c]);
      CarriedAcross(s, r, c, line);
    } else {
      Killed(s, r, line);
      StepFits(s, Revoke(r));
      forall more | PresentsTokens(more) ensures !PassesIn(t, more, line) {
        DeadForGood(t, more, line);
      }
    }
  }
}
