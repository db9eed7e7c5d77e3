/**
 * One-time codes for email verification and PIN reset: a code is sent afresh at
 * most once in five minutes, and a refused caller is told how long to wait.
 */
module ResendThrottle {
  import opened Common
  import opened Redis

  const FIVE_MINUTES: nat := 5 * 60 * 1000

  datatype CodeRecord = CodeRecord(code: string, sentAt: nat)

  /** What a code generation returns: the code, and whether it counts as a new send. */
  datatype Generated = Generated(code: string, sent: bool)

  function VerifyKey(email: string): string { "verify:" + email }

  function PinResetKey(email: string): string { "pin:reset:" + email }

  /** The two kinds of codes never share a record. */
  lemma {:induction false} SeparateRecords(email: string, other: string)
    ensures VerifyKey(email) != PinResetKey(other)
    ensures VerifyKey(email) == VerifyKey(other) <==> email == other
    ensures PinResetKey(email) == PinResetKey(other) <==> email == other
  {
    assert VerifyKey(email)[0] == 'v' && PinResetKey(other)[0] == 'p';
    PrefixedKeys("verify:", email, other);
    PrefixedKeys("pin:reset:", email, other);
  }

  function Generate(keys: Store<CodeRecord>, now: nat, key: string, freshCode: string): Generated
  {
    match Lookup(keys, now, key)
    case None => Generated(freshCode, true)
    case Some(record) =>
      if now - record.sentAt < FIVE_MINUTES then Generated(record.code, false)
      else Generated(if record.code != "" then record.code else freshCode, true)
  }

  function AfterGenerate(keys: Store<CodeRecord>, now: nat, key: string, freshCode: string, ttl: nat): Store<CodeRecord>
  {
    var g := Generate(keys, now, key, freshCode);
    if g.sent then Put(keys, now, key, CodeRecord(g.code, now), ttl) else keys
  }

  /** Whole seconds until the five minutes since `sentAt` are over, rounded up. */
  function NextRetryIn(now: int, sentAt: int): int
  {
    (FIVE_MINUTES - (now - sentAt) + (MILLIS - 1)) / MILLIS
  }

  /** A code is accepted when a live record holds exactly it. */
  predicate Matches(keys: Store<CodeRecord>, now: nat, key: string, code: string)
  {
    var stored := Lookup(keys, now, key);
    stored.Some? && stored.value.code == code
  }

  datatype RequestReply =
    | Sent
    | Refused(message: string)
    | TooMany(nextRetryIn: int)

  datatype Mail = Mail(to: string, code: string)

  /** The user row as the requests read it. */
  datatype Account = NoAccount | Account(isVerified: bool)

  class CodeService {
    const redis: RedisService<CodeRecord>
    const ttl: nat
    const dev: bool
    var outbox: seq<Mail>

    constructor (redis: RedisService<CodeRecord>, ttl: nat, dev: bool)
      ensures this.redis == redis && this.ttl == ttl && this.dev == dev && outbox == []
    {
      this.redis, this.ttl, this.dev, outbox := redis, ttl, dev, [];
    }

    method GenerateAndStore(now: nat, key: string, freshCode: string) returns (g: Generated)
      modifies redis
      ensures g == Generate(old(redis.keys), now, key, freshCode)
      ensures redis.keys == AfterGenerate(old(redis.keys), now, key, freshCode, ttl)
    {
      var existing := redis.Get(now, key);
      if existing.Some? && now - existing.value.sentAt < FIVE_MINUTES {
        return Generated(existing.value.code, false);
      }
      var code := if existing.Some? && existing.value.code != "" then existing.value.code else freshCode;
      redis.Set(now, key, CodeRecord(code, now), ttl);
      return Generated(code, true);
    }

    /** The verification mail leaves whether or not the code was sent afresh. */
    method QueueVerificationEmail(now: nat, email: string, freshCode: string) returns (sent: bool)
      modifies this, redis
      ensures var g := Generate(old(redis.keys), now, VerifyKey(email), freshCode);
              sent == g.sent && outbox == old(outbox) + if dev then [] else [Mail(email, g.code)]
      ensures redis.keys == AfterGenerate(old(redis.keys), now, VerifyKey(email), freshCode, ttl)
    {
      var g := GenerateAndStore(now, VerifyKey(email), freshCode);
      if !dev {
        outbox := outbox + [Mail(email, g.code)];
      }
      return g.sent;
    }

    method RequestVerification(now: nat, email: string, account: Account, freshCode: string)
      returns (reply: RequestReply)
      modifies this, redis
      ensures account != Account(false) ==>
                reply.Refused? && redis.keys == old(redis.keys) && outbox == old(outbox)
      ensures account == Account(false) ==>
                var g := Generate(old(redis.keys), now, VerifyKey(email), freshCode);
                && redis.keys == AfterGenerate(old(redis.keys), now, VerifyKey(email), freshCode, ttl)
                && outbox == old(outbox) + (if dev then [] else [Mail(email, g.code)])
                && reply == if g.sent then Sent
                            else TooMany(NextRetryIn(now, old(redis.keys)[VerifyKey(email)].value.sentAt))
      ensures Address(redis.keys, account)
              == AfterEvent(Address(old(redis.keys), account), VerifyKey(email), ttl, Ask(now, freshCode))
    {
      if account.NoAccount? {
        return Refused("User not found");
      }
      if account.isVerified {
        return Refused("Email already verified");
      }
      var sent := QueueVerificationEmail(now, email, freshCode);
      if !sent {
        var existing := redis.Get(now, VerifyKey(email));
        var sentAt := if existing.Some? then existing.value.sentAt else 0;
        return TooMany(NextRetryIn(now, sentAt));
      }
      return Sent;
    }

    /** The reset mail leaves only with a fresh send. */
    method RequestPinReset(now: nat, email: string, account: Account, freshCode: string)
      returns (reply: RequestReply)
      modifies this, redis
      ensures account != Account(true) ==>
                reply.Refused? && redis.keys == old(redis.keys) && outbox == old(outbox)
      ensures account == Account(true) ==>
                var g := Generate(old(redis.keys), now, PinResetKey(email), freshCode);
                && redis.keys == AfterGenerate(old(redis.keys), now, PinResetKey(email), freshCode, ttl)
                && outbox == old(outbox) + (if g.sent && !dev then [Mail(email, g.code)] else [])
                && reply == if g.sent then Sent
                            else TooMany(NextRetryIn(now, old(redis.keys)[PinResetKey(email)].value.sentAt))
      ensures account == Account(true) ==>
                redis.keys == After(old(redis.keys), PinResetKey(email), ttl, Request(now, freshCode))
    {
      if account.NoAccount? {
        return Refused("User not found");
      }
      if !account.isVerified {
        return Refused("Email verification required before resetting PIN");
      }
      var g := GenerateAndStore(now, PinResetKey(email), freshCode);
      if !g.sent {
        var existing := redis.Get(now, PinResetKey(email));
        var sentAt := if existing.Some? then existing.value.sentAt else 0;
        return TooMany(NextRetryIn(now, sentAt));
      }
      if !dev {
        outbox := outbox + [Mail(email, g.code)];
      }
      return Sent;
    }

    /** A matching code of an unverified account is used up, and the account is verified then. */
    method VerifyEmail(now: nat, email: string, account: Account, code: string) returns (reply: Reply, after: Account)
      modifies redis
      ensures reply.Returned? <==> account == Account(false) && Matches(old(redis.keys), now, VerifyKey(email), code)
      ensures redis.keys == if reply.Returned? then old(redis.keys) - {VerifyKey(email)} else old(redis.keys)
      ensures after == if reply.Returned? then Account(true) else account
      ensures Address(redis.keys, after)
              == AfterEvent(Address(old(redis.keys), account), VerifyKey(email), ttl, Verify(now, code))
    {
      after := account;
      if account.NoAccount? {
        return Thrown("User not found"), after;
      }
      if account.isVerified {
        return Thrown("Email already verified"), after;
      }
      var stored := redis.Get(now, VerifyKey(email));
      if stored.None? {
        return Thrown("Verification code expired or not found"), after;
      }
      if stored.value.code != code {
        return Thrown("Invalid verification code"), after;
      }
      redis.Del(VerifyKey(email));
      return Returned, Account(true);
    }

    /** A matching code of an existing account is used up. */
    method ConfirmPinReset(now: nat, email: string, account: Account, code: string) returns (reply: Reply)
      modifies redis
      ensures reply.Returned? <==> account.Account? && Matches(old(redis.keys), now, PinResetKey(email), code)
      ensures redis.keys == if reply.Returned? then old(redis.keys) - {PinResetKey(email)} else old(redis.keys)
      ensures account.Account? ==>
                redis.keys == After(old(redis.keys), PinResetKey(email), ttl, Confirm(now, code))
    {
      if account.NoAccount? {
        return Thrown("User not found");
      }
      var stored := redis.Get(now, PinResetKey(email));
      if stored.None? {
        return Thrown("Reset code expired or not found");
      }
      if stored.value.code != code {
        return Thrown("Invalid reset code");
      }
      redis.Del(PinResetKey(email));
      return Returned;
    }
  }

  // ---- Runs over one key ----

  datatype Event =
    | Request(at: nat, freshCode: string)
    | Confirm(at: nat, code: string)

  predicate Timed(run: seq<Event>)
  {
    && (forall i, j :: 0 <= i < j < |run| ==> run[i].at <= run[j].at)
    && (forall i :: 0 <= i < |run| && run[i].Request? ==> run[i].freshCode != "")
  }

  function After(keys: Store<CodeRecord>, key: string, ttl: nat, e: Event): Store<CodeRecord>
  {
    match e
    case Request(at, freshCode) => AfterGenerate(keys, at, key, freshCode, ttl)
    case Confirm(at, code) => if Matches(keys, at, key, code) then keys - {key} else keys
  }

  function KeysAfter(run: seq<Event>, key: string, ttl: nat): Store<CodeRecord>
  {
    if run == [] then map[] else After(KeysAfter(run[..|run| - 1], key, ttl), key, ttl, run[|run| - 1])
  }

  predicate FreshSend(run: seq<Event>, key: string, ttl: nat, i: nat)
    requires i < |run|
  {
    run[i].Request? && Generate(KeysAfter(run[..i], key, ttl), run[i].at, key, run[i].freshCode).sent
  }

  predicate UsedUp(run: seq<Event>, key: string, ttl: nat, i: nat)
    requires i < |run|
  {
    run[i].Confirm? && Matches(KeysAfter(run[..i], key, ttl), run[i].at, key, run[i].code)
  }

  /** The record is no older than `t`, no newer than `now`, holds a code and outlives its five minutes. */
  ghost predicate Recorded(keys: Store<CodeRecord>, key: string, t: nat, now: nat)
  {
    && key in keys
    && t <= keys[key].value.sentAt <= now
    && keys[key].value.code != ""
    && keys[key].expiresAt.Some? && keys[key].value.sentAt + FIVE_MINUTES <= keys[key].expiresAt.value
  }

  lemma {:induction false} StepRecorded(keys: Store<CodeRecord>, key: string, ttl: nat, t: nat, now: nat, e: Event)
    requires ttl * MILLIS >= FIVE_MINUTES
    requires Recorded(keys, key, t, now) && now <= e.at
    requires e.Request? ==> e.freshCode != ""
    requires e.Confirm? ==> !Matches(keys, e.at, key, e.code)
    ensures Recorded(After(keys, key, ttl, e), key, t, e.at)
    ensures e.Request? && Generate(keys, e.at, key, e.freshCode).sent ==> t + FIVE_MINUTES <= e.at
  {
  }

  /** A record, when there is one, always has the shape the throttle relies on. */
  lemma {:induction false} RunRecorded(run: seq<Event>, key: string, ttl: nat)
    requires ttl * MILLIS >= FIVE_MINUTES
    requires Timed(run)
    ensures key in KeysAfter(run, key, ttl) ==>
              run != [] && Recorded(KeysAfter(run, key, ttl), key, 0, run[|run| - 1].at)
  {
    if run != [] {
      var last := |run| - 1;
      RunRecorded(run[..last], key, ttl);
    }
  }

  /** From a fresh send on, until the code is used up, the record stays and is never older than that send. */
  lemma {:induction false} RecordedSince(run: seq<Event>, key: string, ttl: nat, i: nat, j: nat)
    requires ttl * MILLIS >= FIVE_MINUTES
    requires Timed(run) && i < j <= |run|
    requires FreshSend(run, key, ttl, i)
    requires forall k :: i < k < j ==> !UsedUp(run, key, ttl, k)
    ensures Recorded(KeysAfter(run[..j], key, ttl), key, run[i].at, run[j - 1].at)
    decreases j
  {
    assert run[..j][..j - 1] == run[..j - 1];
    if i == j - 1 {
      RunRecorded(run[..i], key, ttl);
    } else {
      RecordedSince(run, key, ttl, i, j - 1);
      assert !UsedUp(run, key, ttl, j - 1);
      StepRecorded(KeysAfter(run[..j - 1], key, ttl), key, ttl, run[i].at, run[j - 2].at, run[j - 1]);
    }
  }

  // ---- The throttle from the history of its key ----

  /** What the code of a fresh send is. */
  function CodeOf(run: seq<Event>, key: string, ttl: nat, i: nat): string
    requires i < |run| && run[i].Request?
  {
    Generate(KeysAfter(run[..i], key, ttl), run[i].at, key, run[i].freshCode).code
  }

  /** The last fresh send, unless its code was used up since. */
  function LastSend(run: seq<Event>, key: string, ttl: nat): (last: Option<nat>)
    ensures last.Some? ==> last.value < |run| && run[last.value].Request?
  {
    if run == [] then None
    else if FreshSend(run, key, ttl, |run| - 1) then Some(|run| - 1)
    else if UsedUp(run, key, ttl, |run| - 1) then None
    else LastSend(run[..|run| - 1], key, ttl)
  }

  /** That send, when its code still lives at the event `j`. */
  function Standing(run: seq<Event>, key: string, ttl: nat, j: nat): (i: Option<nat>)
    requires j < |run|
    ensures i.Some? ==> i.value < j && run[i.value].Request?
  {
    var last := LastSend(run[..j], key, ttl);
    if last.Some? && run[j].at < run[last.value].at + ttl * 1000 then last else None
  }

  /** The store holds the record of the last send, and none when there is no such send. */
  lemma {:induction false} RunRemembers(run: seq<Event>, key: string, ttl: nat)
    requires ttl > 0
    ensures var keys, last := KeysAfter(run, key, ttl), LastSend(run, key, ttl);
      && (key in keys <==> last.Some?)
      && (last.Some? ==>
           var i := last.value;
           keys[key] == Entry(CodeRecord(CodeOf(run, key, ttl, i), run[i].at), Some(run[i].at + ttl * 1000)))
  {
    if run != [] {
      var front := run[..|run| - 1];
      RunRemembers(front, key, ttl);
      var last := LastSend(front, key, ttl);
      if last.Some? {
        assert front[..last.value] == run[..last.value];
      }
    }
  }

  lemma {:induction false} StandingIsLive(run: seq<Event>, key: string, ttl: nat, j: nat)
    requires ttl > 0 && j < |run|
    ensures var found, i := Lookup(KeysAfter(run[..j], key, ttl), run[j].at, key), Standing(run, key, ttl, j);
      found == if i.Some? then Some(CodeRecord(CodeOf(run, key, ttl, i.value), run[i.value].at)) else None
  {
    RunRemembers(run[..j], key, ttl);
    var last := LastSend(run[..j], key, ttl);
    if last.Some? {
      assert run[..j][..last.value] == run[..last.value];
    }
  }

  /**
   * A confirmation is accepted if and only if it presents the code of the last send, within the lifetime of that code,
   * and the code has not been used up.
   */
  lemma {:induction false} AcceptedIff(run: seq<Event>, key: string, ttl: nat, j: nat)
    requires ttl > 0 && j < |run| && run[j].Confirm?
    ensures UsedUp(run, key, ttl, j) <==>
              Standing(run, key, ttl, j).Some? && CodeOf(run, key, ttl, Standing(run, key, ttl, j).value) == run[j].code
  {
    StandingIsLive(run, key, ttl, j);
  }

  /** A request is answered by a fresh send exactly when the last send, unless used up, is 300000 ms or more ago. */
  lemma {:induction false} SentIff(run: seq<Event>, key: string, ttl: nat, j: nat)
    requires ttl >= 300 && Timed(run) && j < |run| && run[j].Request?
    ensures FreshSend(run, key, ttl, j) <==>
              var last := LastSend(run[..j], key, ttl); last.None? || run[last.value].at + 300_000 <= run[j].at
  {
    StandingIsLive(run, key, ttl, j);
  }

  /** A send repeats the code of the last one as long as that lives and is not used up; otherwise it draws a new one. */
  lemma {:induction false} CodeIsKeptOrDrawn(run: seq<Event>, key: string, ttl: nat, j: nat)
    requires ttl > 0 && Timed(run) && j < |run| && run[j].Request?
    ensures var i := Standing(run, key, ttl, j);
      CodeOf(run, key, ttl, j) == if i.Some? then CodeOf(run, key, ttl, i.value) else run[j].freshCode
    ensures CodeOf(run, key, ttl, j) != ""
    decreases j
  {
    StandingIsLive(run, key, ttl, j);
    var i := Standing(run, key, ttl, j);
    if i.Some? {
      CodeIsKeptOrDrawn(run, key, ttl, i.value);
    }
  }

  /** Two fresh sends are at least five minutes apart, unless the code was used up in between. */
  lemma {:induction false} SendsAreSpaced(run: seq<Event>, key: string, ttl: nat, i: nat, j: nat)
    requires ttl * MILLIS >= FIVE_MINUTES
    requires Timed(run) && i < j < |run|
    requires FreshSend(run, key, ttl, i) && FreshSend(run, key, ttl, j)
    requires forall k :: i < k < j ==> !UsedUp(run, key, ttl, k)
    ensures run[i].at + FIVE_MINUTES <= run[j].at
  {
    RecordedSince(run, key, ttl, i, j);
    StepRecorded(KeysAfter(run[..j], key, ttl), key, ttl, run[i].at, run[j - 1].at, run[j]);
  }

  /** The exception is real for PIN resets: once a code is used up, the next request is sent at once. */
  lemma {:induction false} UsedUpReopens(run: seq<Event>, key: string, ttl: nat, i: nat, freshCode: string)
    requires i < |run| && run[i].Confirm?
    requires UsedUp(run, key, ttl, i)
    ensures FreshSend(run[..i + 1] + [Request(run[i].at, freshCode)], key, ttl, i + 1)
  {
    var longer := run[..i + 1] + [Request(run[i].at, freshCode)];
    assert longer[..i + 1] == run[..i + 1];
    assert run[..i + 1][..i] == run[..i];
  }

  lemma {:induction false} CodeStep(keys: Store<CodeRecord>, key: string, ttl: nat, t: nat, now: nat, e: Event)
    requires Recorded(keys, key, t, now) && now <= e.at
    requires Lookup(keys, e.at, key).Some?
    requires e.Confirm? ==> !Matches(keys, e.at, key, e.code)
    ensures key in After(keys, key, ttl, e) && After(keys, key, ttl, e)[key].value.code == keys[key].value.code
  {
  }

  /** While a record lives its code never changes, however many requests there are. */
  lemma {:induction false} CodeNeverChanges(run: seq<Event>, key: string, ttl: nat, i: nat, j: nat)
    requires ttl * MILLIS >= FIVE_MINUTES
    requires Timed(run) && i <= j < |run|
    requires forall k :: i <= k <= j ==> Lookup(KeysAfter(run[..k], key, ttl), run[k].at, key).Some?
    requires forall k :: i <= k < j ==> !UsedUp(run, key, ttl, k)
    ensures Lookup(KeysAfter(run[..j], key, ttl), run[j].at, key).value.code
            == Lookup(KeysAfter(run[..i], key, ttl), run[i].at, key).value.code
    decreases j
  {
    if i < j {
      CodeNeverChanges(run, key, ttl, i, j - 1);
      SameCodeNext(run, key, ttl, j - 1);
    }
  }

  lemma {:induction false} SameCodeNext(run: seq<Event>, key: string, ttl: nat, j: nat)
    requires ttl * MILLIS >= FIVE_MINUTES
    requires Timed(run) && j + 1 < |run| && !UsedUp(run, key, ttl, j)
    requires Lookup(KeysAfter(run[..j], key, ttl), run[j].at, key).Some?
    ensures key in KeysAfter(run[..j + 1], key, ttl)
    ensures KeysAfter(run[..j + 1], key, ttl)[key].value.code == KeysAfter(run[..j], key, ttl)[key].value.code
  {
    var before := KeysAfter(run[..j], key, ttl);
    RunRecorded(run[..j], key, ttl);
    CodeStep(before, key, ttl, 0, run[j - 1].at, run[j]);
    assert run[..j + 1][..j] == run[..j];
  }

  /** A refused caller is told 1 to 300 seconds, the least whole number of seconds after which a request is sent. */
  lemma {:induction false} RetryIsLeast(run: seq<Event>, key: string, ttl: nat, now: nat, freshCode: string)
    requires ttl * MILLIS >= FIVE_MINUTES
    requires Timed(run + [Request(now, freshCode)])
    requires !Generate(KeysAfter(run, key, ttl), now, key, freshCode).sent
    ensures var wait := NextRetryIn(now, KeysAfter(run, key, ttl)[key].value.sentAt);
            && 1 <= wait <= 300
            && forall s: nat :: Generate(KeysAfter(run, key, ttl), now + s * MILLIS, key, freshCode).sent <==> wait <= s
  {
    var longer := run + [Request(now, freshCode)];
    assert forall i :: 0 <= i < |run| ==> longer[i] == run[i];
    RunRecorded(run, key, ttl);
    assert run[|run| - 1].at <= longer[|run|].at by { assert longer[|run| - 1].at <= longer[|run|].at; }
  }

  /** The verification path sends its mail on every request; two requests at one instant give two mails. */
  method VerificationMailIsNotThrottled(now: nat, email: string, first: string, second: string)
    returns (replies: (RequestReply, RequestReply), mails: seq<Mail>)
    ensures replies == (Sent, TooMany(300)) && mails == [Mail(email, first), Mail(email, first)]
  {
    var redis := new RedisService<CodeRecord>();
    var service := new CodeService(redis, 300, false);
    var r0 := service.RequestVerification(now, email, Account(false), first);
    var r1 := service.RequestVerification(now, email, Account(false), second);
    return (r0, r1), service.outbox;
  }

  // ---- Verification, with the account in the run ----

  /** What happens to one address: requests and confirmations, and what becomes of the account that has it. */
  datatype AccountEvent =
    | Ask(at: nat, freshCode: string)
    | Verify(at: nat, code: string)
    | Register(at: nat, freshCode: string)   // writes the record itself, whatever is there
    | Leave(at: nat)                         // the account takes another address
    | Mark(at: nat, verified: bool)          // an administrator's verdict

  datatype Address = Address(keys: Store<CodeRecord>, account: Account)

  function AfterEvent(a: Address, key: string, ttl: nat, e: AccountEvent): Address
  {
    match e
    case Ask(at, freshCode) =>
      if a.account == Account(false) then a.(keys := AfterGenerate(a.keys, at, key, freshCode, ttl)) else a
    case Verify(at, code) =>
      if a.account == Account(false) && Matches(a.keys, at, key, code)
      then Address(a.keys - {key}, Account(true)) else a
    case Register(at, freshCode) =>
      if a.account.NoAccount? then Address(Put(a.keys, at, key, CodeRecord(freshCode, at), ttl), Account(false)) else a
    case Leave(at) => a.(account := NoAccount)
    case Mark(at, verified) => if a.account.Account? then a.(account := Account(verified)) else a
  }

  function AddressAfter(run: seq<AccountEvent>, key: string, ttl: nat): Address
  {
    if run == [] then Address(map[], NoAccount)
    else AfterEvent(AddressAfter(run[..|run| - 1], key, ttl), key, ttl, run[|run| - 1])
  }

  predicate TimedAccount(run: seq<AccountEvent>)
  {
    && (forall i, j :: 0 <= i < j < |run| ==> run[i].at <= run[j].at)
    && (forall i :: 0 <= i < |run| ==> WithCode(run[i]))
  }

  predicate WithCode(e: AccountEvent)
  {
    (e.Ask? ==> e.freshCode != "") && (e.Register? ==> e.freshCode != "")
  }

  /** A code that is sent afresh, or written by a registration. */
  predicate FreshCode(run: seq<AccountEvent>, key: string, ttl: nat, i: nat)
    requires i < |run|
  {
    var a := AddressAfter(run[..i], key, ttl);
    || (run[i].Ask? && a.account == Account(false) && Generate(a.keys, run[i].at, key, run[i].freshCode).sent)
    || (run[i].Register? && a.account.NoAccount?)
  }

  /** The address has a record no older than `t`, or nobody unverified is there to ask. */
  ghost predicate Guarded(a: Address, key: string, t: nat, now: nat)
  {
    a.account != Account(false) || Recorded(a.keys, key, t, now)
  }

  lemma {:induction false} StepGuarded(a: Address, key: string, ttl: nat, t: nat, now: nat, e: AccountEvent)
    requires ttl * MILLIS >= FIVE_MINUTES
    requires Guarded(a, key, t, now) && t <= now <= e.at && WithCode(e)
    requires e.Mark? ==> e.verified
    ensures Guarded(AfterEvent(a, key, ttl, e), key, t, e.at)
    ensures e.Ask? && a.account == Account(false) && Generate(a.keys, e.at, key, e.freshCode).sent ==>
              t + FIVE_MINUTES <= e.at
  {
    if a.account == Account(false) && e.Ask? {
      StepRecorded(a.keys, key, ttl, t, now, Request(e.at, e.freshCode));
    }
  }

  lemma {:induction false} AddressRecorded(run: seq<AccountEvent>, key: string, ttl: nat)
    requires ttl * MILLIS >= FIVE_MINUTES
    requires TimedAccount(run)
    ensures var keys := AddressAfter(run, key, ttl).keys;
      key in keys ==> run != [] && Recorded(keys, key, 0, run[|run| - 1].at)
  {
    if run != [] {
      var last := |run| - 1;
      AddressRecorded(run[..last], key, ttl);
      assert WithCode(run[last]);
    }
  }

  lemma {:induction false} GuardedSince(run: seq<AccountEvent>, key: string, ttl: nat, i: nat, j: nat)
    requires ttl * MILLIS >= FIVE_MINUTES
    requires TimedAccount(run) && i < j <= |run| && FreshCode(run, key, ttl, i)
    requires forall k :: i < k < j && run[k].Mark? ==> run[k].verified
    ensures Guarded(AddressAfter(run[..j], key, ttl), key, run[i].at, run[j - 1].at)
    decreases j
  {
    assert run[..j][..j - 1] == run[..j - 1];
    assert WithCode(run[j - 1]);
    if i == j - 1 {
      AddressRecorded(run[..i], key, ttl);
    } else {
      GuardedSince(run, key, ttl, i, j - 1);
      StepGuarded(AddressAfter(run[..j - 1], key, ttl), key, ttl, run[i].at, run[j - 2].at, run[j - 1]);
    }
  }

  /**
   * A verification code is sent afresh at the earliest five minutes after the last fresh send or registration, also
   * across a successful verification and a new registration of the address, unless an administrator declares the
   * account unverified in between.
   */
  lemma {:induction false} VerificationSendsAreSpaced(run: seq<AccountEvent>, key: string, ttl: nat, i: nat, j: nat)
    requires ttl * MILLIS >= FIVE_MINUTES
    requires TimedAccount(run) && i < j < |run|
    requires FreshCode(run, key, ttl, i) && FreshCode(run, key, ttl, j) && run[j].Ask?
    requires forall k :: i < k < j && run[k].Mark? ==> run[k].verified
    ensures run[i].at + FIVE_MINUTES <= run[j].at
  {
    GuardedSince(run, key, ttl, i, j);
    assert WithCode(run[j]);
    StepGuarded(AddressAfter(run[..j], key, ttl), key, ttl, run[i].at, run[j - 1].at, run[j]);
  }

  /** The code of the live record, between two events, is the same or was written by a registration. */
  lemma {:induction false} SameAddressCode(run: seq<AccountEvent>, key: string, ttl: nat, j: nat)
    requires ttl * MILLIS >= FIVE_MINUTES
    requires TimedAccount(run) && j + 1 < |run|
    requires Lookup(AddressAfter(run[..j], key, ttl).keys, run[j].at, key).Some?
    requires key in AddressAfter(run[..j + 1], key, ttl).keys
    ensures var before, after := AddressAfter(run[..j], key, ttl), AddressAfter(run[..j + 1], key, ttl);
      after.keys[key].value.code == before.keys[key].value.code <==>
        !(run[j].Register? && before.account.NoAccount? && run[j].freshCode != before.keys[key].value.code)
  {
    var before := AddressAfter(run[..j], key, ttl);
    AddressRecorded(run[..j], key, ttl);
    assert WithCode(run[j]);
    assert run[..j + 1][..j] == run[..j];
  }

  /** While the record of an address lives its code stays, unless an account is registered with the address. */
  lemma {:induction false} VerificationCodeStays(run: seq<AccountEvent>, key: string, ttl: nat, i: nat, j: nat)
    requires ttl * MILLIS >= FIVE_MINUTES
    requires TimedAccount(run) && i <= j < |run|
    requires forall k :: i <= k <= j ==> Lookup(AddressAfter(run[..k], key, ttl).keys, run[k].at, key).Some?
    requires forall k :: i <= k < j ==> !(run[k].Register? && AddressAfter(run[..k], key, ttl).account.NoAccount?)
    ensures Lookup(AddressAfter(run[..j], key, ttl).keys, run[j].at, key).value.code
            == Lookup(AddressAfter(run[..i], key, ttl).keys, run[i].at, key).value.code
    decreases j
  {
    if i < j {
      VerificationCodeStays(run, key, ttl, i, j - 1);
      SameAddressCode(run, key, ttl, j - 1);
    }
  }
}
