/**
 * The failure limiter in front of withdrawals: three wrong PINs lock the user out
 * until fifteen minutes have passed since the last wrong one.
 */
module PinLimiter {
  import opened Common
  import opened Redis

  const PIN_FAIL_KEY := "withdrawal:pin:fail:"
  const PIN_FAIL_LIMIT := 3
  const PIN_FAIL_TTL := 900

  /** The same lifetime on the millisecond clock. */
  const WINDOW: nat := PIN_FAIL_TTL * MILLIS

  datatype PinOutcome =
    | Accepted
    | NotSet
    | Locked                    // refused before the PIN is looked at
    | Rejected(remaining: int)  // evaluated and wrong

  /** One call: who, when, whether a PIN is set, and what the password hash check says. */
  datatype Attempt = Attempt(user: Id, at: nat, pinSet: bool, valid: bool)

  function FailKey(user: Id): string { PIN_FAIL_KEY + user }

  function Verdict(keys: Store<nat>, a: Attempt): PinOutcome
  {
    var fails := Lookup(keys, a.at, FailKey(a.user));
    if fails.Some? && fails.value >= PIN_FAIL_LIMIT then Locked
    else if !a.pinSet then NotSet
    else if a.valid then Accepted
    else Rejected(PIN_FAIL_LIMIT - (if fails.Some? then fails.value else 0) - 1)
  }

  function AfterAttempt(keys: Store<nat>, a: Attempt): Store<nat>
  {
    if Verdict(keys, a).Rejected?
    then Expiring(Incremented(keys, a.at, FailKey(a.user)), a.at, FailKey(a.user), PIN_FAIL_TTL)
    else keys
  }

  method VerifyUserPin(redis: RedisService<nat>, a: Attempt) returns (outcome: PinOutcome)
    modifies redis
    ensures outcome == Verdict(old(redis.keys), a)
    ensures redis.keys == AfterAttempt(old(redis.keys), a)
  {
    var failKey := FailKey(a.user);
    var failCount := redis.Get(a.at, failKey);
    if failCount.Some? && failCount.value >= PIN_FAIL_LIMIT {
      return Locked;
    }
    if !a.pinSet {
      return NotSet;
    }
    if !a.valid {
      var currentFails := redis.Get(a.at, failKey);
      var _ := Incr(redis, a.at, failKey);
      redis.Expire(a.at, failKey, PIN_FAIL_TTL);
      var remaining := PIN_FAIL_LIMIT - (if currentFails.Some? then currentFails.value else 0) - 1;
      return Rejected(remaining);
    }
    return Accepted;
  }

  // ---- Runs ----

  predicate Timed(run: seq<Attempt>)
  {
    forall i, j :: 0 <= i < j < |run| ==> run[i].at <= run[j].at
  }

  function KeysAfter(run: seq<Attempt>): Store<nat>
  {
    if run == [] then map[] else AfterAttempt(KeysAfter(run[..|run| - 1]), run[|run| - 1])
  }

  function VerdictAt(run: seq<Attempt>, i: nat): PinOutcome
    requires i < |run|
  {
    Verdict(KeysAfter(run[..i]), run[i])
  }

  /** The instants at which `user` gave a wrong PIN that was evaluated. */
  function Failures(run: seq<Attempt>, user: Id): (times: seq<nat>)
    ensures |times| <= |run|
  {
    if run == [] then [] else
      var last := |run| - 1;
      Failures(run[..last], user)
      + if run[last].user == user && VerdictAt(run, last).Rejected? then [run[last].at] else []
  }

  /** How many failures end the sequence with every gap between neighbours below the window. */
  function Streak(times: seq<nat>): (n: nat)
    ensures n <= |times|
  {
    if times == [] then 0
    else if |times| == 1 || times[|times| - 1] >= times[|times| - 2] + WINDOW then 1
    else Streak(times[..|times| - 1]) + 1
  }

  /** The counter of a user is exactly the streak of that user's failures, and expires a window after the last. */
  ghost predicate Tracks(keys: Store<nat>, user: Id, times: seq<nat>)
  {
    if times == [] then FailKey(user) !in keys
    else FailKey(user) in keys
         && keys[FailKey(user)] == Entry(Streak(times), Some(times[|times| - 1] + WINDOW))
         && 1 <= Streak(times) <= PIN_FAIL_LIMIT
  }

  lemma {:induction false} AttemptTracks(keys: Store<nat>, user: Id, times: seq<nat>, a: Attempt)
    requires Tracks(keys, user, times)
    requires times != [] ==> times[|times| - 1] <= a.at
    ensures a.user == user && Verdict(keys, a).Rejected? ==> Tracks(AfterAttempt(keys, a), user, times + [a.at])
    ensures a.user != user || !Verdict(keys, a).Rejected? ==> Tracks(AfterAttempt(keys, a), user, times)
  {
    PrefixedKeys(PIN_FAIL_KEY, user, a.user);
    assert (times + [a.at])[..|times|] == times;
  }

  /** Failure times are in order and none is later than the last attempt. */
  ghost predicate Ordered(times: seq<nat>, run: seq<Attempt>)
  {
    && (forall t :: t in times ==> run != [] && t <= run[|run| - 1].at)
    && (forall i, j :: 0 <= i < j < |times| ==> times[i] <= times[j])
  }

  lemma {:induction false} FailuresOrdered(run: seq<Attempt>, user: Id)
    requires Timed(run)
    ensures Ordered(Failures(run, user), run)
  {
    if run != [] {
      var times := Failures(run[..|run| - 1], user);
      FailuresOrdered(run[..|run| - 1], user);
      var all := Failures(run, user);
      forall i, j | 0 <= i < j < |all| ensures all[i] <= all[j] {
        assert all[i] == times[i] && times[i] in times;
      }
    }
  }

  /** Every reachable store tracks every user. */
  lemma {:induction false} RunTracks(run: seq<Attempt>, user: Id)
    requires Timed(run)
    ensures Tracks(KeysAfter(run), user, Failures(run, user))
  {
    if run != [] {
      var last := |run| - 1;
      var before := run[..last];
      RunTracks(before, user);
      FailuresOrdered(before, user);
      var times := Failures(before, user);
      assert times != [] ==> times[|times| - 1] in times;
      AttemptTracks(KeysAfter(before), user, times, run[last]);
      assert times + [] == times;
    }
  }

  /** The streak never exceeds the limit, at the end of the failures or at any earlier point. */
  lemma {:induction false} StreaksBounded(run: seq<Attempt>, user: Id, k: nat)
    requires Timed(run)
    requires k <= |Failures(run, user)|
    ensures Streak(Failures(run, user)[..k]) <= PIN_FAIL_LIMIT
    decreases |run|
  {
    var times := Failures(run, user);
    if k == |times| {
      RunTracks(run, user);
      assert times[..k] == times;
    } else {
      var before := run[..|run| - 1];
      StreaksBounded(before, user, k);
      assert times[..k] == Failures(before, user)[..k];
    }
  }

  lemma {:induction false} ChainWithinStreak(times: seq<nat>, i: nat, j: nat)
    requires i < j <= |times|
    requires forall k :: i <= k < j - 1 ==> times[k + 1] < times[k] + WINDOW
    ensures j - i <= Streak(times[..j])
    decreases j
  {
    if i < j - 1 {
      ChainWithinStreak(times, i, j - 1);
      assert times[..j][..j - 1] == times[..j - 1];
      assert times[j - 2 + 1] < times[j - 2] + WINDOW;
    }
  }

  /** Any chain of wrong PINs whose neighbours are less than the window apart has at most three members. */
  lemma {:induction false} ChainsAreShort(run: seq<Attempt>, user: Id, i: nat, j: nat)
    requires Timed(run)
    requires i < j <= |Failures(run, user)|
    requires forall k :: i <= k < j - 1 ==> Failures(run, user)[k + 1] < Failures(run, user)[k] + WINDOW
    ensures j - i <= PIN_FAIL_LIMIT
  {
    StreaksBounded(run, user, j);
    ChainWithinStreak(Failures(run, user), i, j);
  }

  /** So does any half-open window of that length, wherever it starts. */
  lemma {:induction false} WindowsAreShort(run: seq<Attempt>, user: Id, start: nat, i: nat, j: nat)
    requires Timed(run)
    requires i <= j <= |Failures(run, user)|
    requires forall k :: i <= k < j ==> start <= Failures(run, user)[k] < start + WINDOW
    ensures j - i <= PIN_FAIL_LIMIT
  {
    if i < j {
      FailuresOrdered(run, user);
      ChainsAreShort(run, user, i, j);
    }
  }

  lemma {:induction false} VerdictFromStreak(keys: Store<nat>, times: seq<nat>, a: Attempt)
    requires Tracks(keys, a.user, times)
    requires times != [] ==> times[|times| - 1] <= a.at
    ensures Verdict(keys, a).Locked? <==>
            times != [] && a.at < times[|times| - 1] + WINDOW && Streak(times) == PIN_FAIL_LIMIT
    ensures Verdict(keys, a).Rejected? ==>
            Verdict(keys, a).remaining == PIN_FAIL_LIMIT - Streak(times + [a.at])
                && 0 <= Verdict(keys, a).remaining <= 2
  {
    assert (times + [a.at])[..|times|] == times;
  }

  /** The store an attempt meets at the end of a run tracks its user. */
  lemma {:induction false} NextTracks(run: seq<Attempt>, a: Attempt)
    requires Timed(run + [a])
    ensures Timed(run) && (run + [a])[..|run|] == run
    ensures VerdictAt(run + [a], |run|) == Verdict(KeysAfter(run), a)
    ensures var times := Failures(run, a.user);
            Tracks(KeysAfter(run), a.user, times) && (times != [] ==> times[|times| - 1] <= a.at)
  {
    var longer := run + [a];
    assert longer[..|run|] == run && longer[|run|] == a;
    assert Timed(run) by {
      forall i, j | 0 <= i < j < |run| ensures run[i].at <= run[j].at {
        assert longer[i].at <= longer[j].at;
      }
    }
    RunTracks(run, a.user);
    FailuresOrdered(run, a.user);
    var times := Failures(run, a.user);
    if times != [] {
      assert times[|times| - 1] in times;
      assert longer[|run| - 1].at <= longer[|run|].at;
    }
  }

  /**
   * What the next attempt meets, from the failures alone: it is locked out exactly when
   * the last three wrong PINs form a chain and less than a window has passed, and a wrong PIN reports
   * what the chain leaves of the limit, 0, 1 or 2. Accepted PINs do not appear in this at all.
   */
  lemma {:induction false} NextVerdict(run: seq<Attempt>, a: Attempt)
    requires Timed(run + [a])
    ensures var times := Failures(run, a.user);
            var recent := times != [] && a.at < times[|times| - 1] + WINDOW;
            VerdictAt(run + [a], |run|).Locked? <==> recent && Streak(times) == PIN_FAIL_LIMIT
    ensures var v := VerdictAt(run + [a], |run|);
            v.Rejected? ==>
              v.remaining == PIN_FAIL_LIMIT - Streak(Failures(run, a.user) + [a.at]) && 0 <= v.remaining <= 2
  {
    NextTracks(run, a);
    VerdictFromStreak(KeysAfter(run), Failures(run, a.user), a);
  }

  /** Waiting out the window after the last wrong PIN always gets the next one evaluated, with a full limit again. */
  lemma {:induction false} WaitingUnlocks(run: seq<Attempt>, a: Attempt)
    requires Timed(run + [a])
    requires a.pinSet
    requires forall t :: t in Failures(run, a.user) ==> t + WINDOW <= a.at
    ensures VerdictAt(run + [a], |run|) == if a.valid then Accepted else Rejected(2)
  {
    NextTracks(run, a);
    var times := Failures(run, a.user);
    assert times != [] ==> times[|times| - 1] in times;
  }

  // ---- The limiter from the attempts alone ----

  /** Three wrong PINs, each less than 900 seconds after the one before, the last less than 900 seconds ago. */
  predicate LockedOut(wrong: seq<nat>, at: nat)
  {
    var n := |wrong|;
    && n >= 3 && at < wrong[n - 1] + 900_000
    && wrong[n - 1] < wrong[n - 2] + 900_000 && wrong[n - 2] < wrong[n - 3] + 900_000
  }

  /** When the user gave a wrong PIN while one was set and no lockout was on; no store is involved. */
  function WrongPins(run: seq<Attempt>, user: Id): seq<nat>
  {
    if run == [] then [] else
      var wrong, a := WrongPins(run[..|run| - 1], user), run[|run| - 1];
      wrong + if a.user == user && a.pinSet && !a.valid && !LockedOut(wrong, a.at) then [a.at] else []
  }

  lemma {:induction false} FullStreak(times: seq<nat>)
    ensures Streak(times) >= 3 <==>
      var n := |times|; n >= 3 && times[n - 1] < times[n - 2] + 900_000 && times[n - 2] < times[n - 3] + 900_000
  {
    if |times| >= 2 {
      var front := times[..|times| - 1];
      assert Streak(times) == if times[|times| - 1] >= times[|times| - 2] + WINDOW then 1 else Streak(front) + 1;
      if |times| >= 3 {
        assert Streak(front) == if front[|front| - 1] >= front[|front| - 2] + WINDOW then 1
                                else Streak(front[..|front| - 1]) + 1;
      }
    }
  }

  /** What an attempt meets is decided by the streak of the failures before it. */
  lemma {:induction false} AttemptMeets(run: seq<Attempt>, a: Attempt)
    requires Timed(run + [a])
    ensures var v := VerdictAt(run + [a], |run|);
      var locked := LockedOut(Failures(run, a.user), a.at);
      && (v == Locked <==> locked)
      && (v == NotSet <==> !locked && !a.pinSet)
      && (v == Accepted <==> !locked && a.pinSet && a.valid)
      && (v.Rejected? <==> !locked && a.pinSet && !a.valid)
  {
    NextVerdict(run, a);
    NextTracks(run, a);
    FullStreak(Failures(run, a.user));
    StreaksBounded(run, a.user, |Failures(run, a.user)|);
    assert Failures(run, a.user)[..|Failures(run, a.user)|] == Failures(run, a.user);
  }

  lemma {:induction false} FailuresAreWrongPins(run: seq<Attempt>, user: Id)
    requires Timed(run)
    ensures Failures(run, user) == WrongPins(run, user)
  {
    if run != [] {
      var before, a := run[..|run| - 1], run[|run| - 1];
      assert run == before + [a];
      FailuresAreWrongPins(before, user);
      AttemptMeets(before, a);
    }
  }

  /**
   * Over every timed run, each attempt is answered as the earlier attempts alone say: it is refused unseen exactly when
   * the user's last three wrong PINs are a chain less than 900 seconds old. Otherwise, when a PIN is set, it is
   * accepted if it is valid and rejected if it is not.
   */
  lemma {:induction false} VerdictIff(run: seq<Attempt>, i: nat)
    requires Timed(run) && i < |run|
    ensures var v, a := VerdictAt(run, i), run[i];
      var locked := LockedOut(WrongPins(run[..i], a.user), a.at);
      && (v == Locked <==> locked)
      && (v == NotSet <==> !locked && !a.pinSet)
      && (v == Accepted <==> !locked && a.pinSet && a.valid)
      && (v.Rejected? <==> !locked && a.pinSet && !a.valid)
  {
    var before := run[..i];
    assert before + [run[i]] == run[..i + 1] && run[..i + 1][..i] == before;
    assert Timed(before + [run[i]]);
    AttemptMeets(before, run[i]);
    FailuresAreWrongPins(before, run[i].user);
  }

  /** What a rejected user is told: three, less the wrong PINs of the unexpired chain, this one included. */
  lemma {:induction false} RemainingCounts(run: seq<Attempt>, i: nat)
    requires Timed(run) && i < |run| && VerdictAt(run, i).Rejected?
    ensures var wrong, at := WrongPins(run[..i], run[i].user), run[i].at;
      var n := |wrong|;
      VerdictAt(run, i).remaining
      == if n == 0 || at >= wrong[n - 1] + 900_000 then 2
         else if n == 1 || wrong[n - 1] >= wrong[n - 2] + 900_000 then 1 else 0
  {
    var before, a := run[..i], run[i];
    assert before + [a] == run[..i + 1] && run[..i + 1][..i] == before;
    assert Timed(before + [a]);
    NextVerdict(before, a);
    FailuresAreWrongPins(before, a.user);
    StreakWith(WrongPins(before, a.user), a.at);
  }

  /** A failure ends a chain of its own, or one longer than that before it. */
  lemma {:induction false} StreakWith(times: seq<nat>, at: nat)
    ensures var n, streak := |times|, Streak(times + [at]);
      if n == 0 || at >= times[n - 1] + 900_000 then streak == 1
      else streak == Streak(times) + 1
           && if n == 1 || times[n - 1] >= times[n - 2] + 900_000 then streak == 2 else streak >= 3
  {
    assert (times + [at])[..|times|] == times;
    if |times| >= 2 {
      assert Streak(times[..|times| - 1]) >= 1;
    }
  }
}
