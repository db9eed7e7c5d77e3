/**
 * Crypto webhooks: a payload names on-chain transactions, in one of two shapes, and
 * every hash it names is looked up, verified and credited at most once.
 */
module CryptoWebhooks {
  import opened Common
  import opened Database
  import opened Sums
  import opened Deposits
  import opened LedgerRuns
  import CryptoDeposit

  /** A contract event; a missing hash or missing data reads as the empty string. */
  datatype LogItem = LogItem(hash: string, data: string)

  datatype TxItem = TxItem(hash: string, status: nat)

  datatype Payload = NoBlock | Block(transactions: seq<TxItem>, logs: seq<LogItem>)

  /** The checksum rule for mixed-case addresses, and what verification and conversion make of each hash. */
  datatype Oracle = Oracle(checksummed: string -> bool, verified: map<string, real>)
  {
    predicate Decodes(data: string) { CryptoDeposit.DecodeSender(data, checksummed).Some? }

    function Books(hash: string): Option<real> { if hash in verified then Some(verified[hash]) else None }
  }

  predicate WithdrawalHash(l: Ledger, hash: string)
  {
    hash in l.byHash && l.byHash[hash] in l.transactions && l.transactions[l.byHash[hash]].kind == WITHDRAWAL
  }

  /** Skipped without being verified: a withdrawal of ours, or a hash with a recorded response. */
  predicate Skipped(l: Ledger, hash: string)
  {
    WithdrawalHash(l, hash) || HasResponse(l, CRYPTO, hash)
  }

  function ProcessedHash(l: Ledger, o: Oracle, hash: string): Ledger
  {
    if Skipped(l, hash) then l else VerifiedDeposit(l, hash, o.Books(hash))
  }

  function ProcessedAll(l: Ledger, o: Oracle, hashes: seq<string>): Ledger
  {
    if hashes == [] then l
    else ProcessedHash(ProcessedAll(l, o, hashes[..|hashes| - 1]), o, hashes[|hashes| - 1])
  }

  /** The hashes of logs that get as far as verification: the first log of each hash, if its data decodes. */
  function LogHashes(o: Oracle, logs: seq<LogItem>): seq<string>
  {
    if logs == [] then [] else
      var front, log := logs[..|logs| - 1], logs[|logs| - 1];
      LogHashes(o, front)
      + if log.hash != "" && !Mentioned(front, log.hash) && o.Decodes(log.data) then [log.hash] else []
  }

  predicate Mentioned(logs: seq<LogItem>, hash: string)
  {
    exists i :: 0 <= i < |logs| && logs[i].hash == hash
  }

  function TxHashes(transactions: seq<TxItem>): seq<string>
  {
    if transactions == [] then [] else
      var tx := transactions[|transactions| - 1];
      TxHashes(transactions[..|transactions| - 1]) + if tx.status == 1 then [tx.hash] else []
  }

  /** The hashes a payload takes to verification, in order. */
  function Hashes(o: Oracle, payload: Payload): seq<string>
  {
    match payload
    case NoBlock => []
    case Block(transactions, logs) => if transactions == [] then LogHashes(o, logs) else TxHashes(transactions)
  }

  function Processed(l: Ledger, o: Oracle, payload: Payload): Ledger
  {
    ProcessedAll(l, o, Hashes(o, payload))
  }

  method ProcessHash(db: Database, o: Oracle, hash: string)
    requires HashesResolve(db.View())
    modifies db
    ensures db.View() == ProcessedHash(old(db.View()), o, hash) && HashesResolve(db.View())
  {
    if hash in db.byHash && db.transactions[db.byHash[hash]].kind == WITHDRAWAL {
      return;
    }
    if hash in db.responses && db.responses[hash] == CRYPTO {
      return;
    }
    var _ := VerifyDeposit(db, CRYPTO, Some(hash), o.Books(hash));
  }

  method ProcessQueuedCryptoWebhook(db: Database, o: Oracle, payload: Payload)
    requires HashesResolve(db.View())
    modifies db
    ensures db.View() == Processed(old(db.View()), o, payload) && HashesResolve(db.View())
  {
    if payload.NoBlock? {
      return;
    }
    if payload.transactions == [] {
      ProcessLogs(db, o, payload.logs);
    } else {
      ProcessTransactions(db, o, payload.transactions);
    }
  }

  /** The first log of a hash: the transaction is processed if the depositor can be decoded. */
  method ProcessLog(db: Database, o: Oracle, log: LogItem)
    requires HashesResolve(db.View())
    modifies db
    ensures HashesResolve(db.View())
    ensures db.View() == if o.Decodes(log.data) then ProcessedHash(old(db.View()), o, log.hash) else old(db.View())
  {
    if o.Decodes(log.data) {
      ProcessHash(db, o, log.hash);
    }
  }

  method ProcessLogs(db: Database, o: Oracle, logs: seq<LogItem>)
    requires HashesResolve(db.View())
    modifies db
    ensures db.View() == ProcessedAll(old(db.View()), o, LogHashes(o, logs)) && HashesResolve(db.View())
  {
    var processedHashes: set<string> := {};
    var i := 0;
    while i < |logs|
      invariant 0 <= i <= |logs|
      invariant forall h :: h in processedHashes <==> h != "" && Mentioned(logs[..i], h)
      invariant db.View() == ProcessedAll(old(db.View()), o, LogHashes(o, logs[..i]))
      invariant HashesResolve(db.View())
    {
      var log := logs[i];
      MentionedStep(logs, i);
      LogHashesStep(o, logs, i);
      if log.hash != "" && log.hash !in processedHashes {
        processedHashes := processedHashes + {log.hash};
        ProcessedAppend(old(db.View()), o, LogHashes(o, logs[..i]), log.hash);
        ProcessLog(db, o, log);
      }
      i := i + 1;
    }
    assert logs[..i] == logs;
  }

  lemma {:induction false} LogHashesStep(o: Oracle, logs: seq<LogItem>, i: nat)
    requires i < |logs|
    ensures var next := logs[i].hash != "" && !Mentioned(logs[..i], logs[i].hash) && o.Decodes(logs[i].data);
            LogHashes(o, logs[..i + 1])
            == if next then LogHashes(o, logs[..i]) + [logs[i].hash] else LogHashes(o, logs[..i])
  {
    assert logs[..i + 1][..i] == logs[..i];
  }

  lemma {:induction false} TxHashesStep(transactions: seq<TxItem>, i: nat)
    requires i < |transactions|
    ensures TxHashes(transactions[..i + 1])
            == if transactions[i].status == 1 then TxHashes(transactions[..i]) + [transactions[i].hash]
               else TxHashes(transactions[..i])
  {
    assert transactions[..i + 1][..i] == transactions[..i];
  }

  lemma {:induction false} MentionedStep(logs: seq<LogItem>, i: nat)
    requires i < |logs|
    ensures forall h :: Mentioned(logs[..i + 1], h) <==> Mentioned(logs[..i], h) || logs[i].hash == h
  {
    forall h ensures Mentioned(logs[..i + 1], h) <==> Mentioned(logs[..i], h) || logs[i].hash == h {
      if Mentioned(logs[..i], h) {
        var k :| 0 <= k < i && logs[..i][k].hash == h;
        assert logs[..i + 1][k].hash == h;
      }
      if logs[i].hash == h {
        assert logs[..i + 1][i].hash == h;
      }
      if Mentioned(logs[..i + 1], h) && logs[i].hash != h {
        var k :| 0 <= k < i + 1 && logs[..i + 1][k].hash == h;
        assert logs[..i][k].hash == h;
      }
    }
  }

  method ProcessTransactions(db: Database, o: Oracle, transactions: seq<TxItem>)
    requires HashesResolve(db.View())
    modifies db
    ensures db.View() == ProcessedAll(old(db.View()), o, TxHashes(transactions)) && HashesResolve(db.View())
  {
    var i := 0;
    while i < |transactions|
      invariant 0 <= i <= |transactions|
      invariant db.View() == ProcessedAll(old(db.View()), o, TxHashes(transactions[..i]))
      invariant HashesResolve(db.View())
    {
      var tx := transactions[i];
      if tx.status == 1 {
        ProcessHash(db, o, tx.hash);
        ProcessedAppend(old(db.View()), o, TxHashes(transactions[..i]), tx.hash);
      }
      TxHashesStep(transactions, i);
      i := i + 1;
    }
    assert transactions[..i] == transactions;
  }

  lemma {:induction false} ProcessedAppend(l: Ledger, o: Oracle, hashes: seq<string>, hash: string)
    ensures ProcessedAll(l, o, hashes + [hash]) == ProcessedHash(ProcessedAll(l, o, hashes), o, hash)
  {
    assert (hashes + [hash])[..|hashes|] == hashes;
  }

  // ---- Which hashes are taken to verification, and what each does ----

  /** The first log with this hash. */
  predicate FirstWith(logs: seq<LogItem>, hash: string, k: nat)
  {
    k < |logs| && logs[k].hash == hash && forall i :: 0 <= i < k ==> logs[i].hash != hash
  }

  /** A hash of the logs is taken exactly when it is no empty text and the data of its first log decode. */
  lemma {:induction false} LogHashesIff(o: Oracle, logs: seq<LogItem>, hash: string)
    ensures hash in LogHashes(o, logs) <==>
              hash != "" && exists k: nat :: FirstWith(logs, hash, k) && o.Decodes(logs[k].data)
  {
    if logs != [] {
      var n := |logs| - 1;
      LogHashesIff(o, logs[..n], hash);
      FirstOfMore(logs, hash);
      if FirstWith(logs, hash, n) && o.Decodes(logs[n].data) && hash != "" {
        assert LogHashes(o, logs)[|LogHashes(o, logs[..n])|] == hash;
      }
      forall k: nat | k < n && FirstWith(logs, hash, k) ensures logs[..n][k] == logs[k] {
      }
    }
  }

  /** A log at the end is the first of its hash exactly when the hash was not mentioned before. */
  lemma {:induction false} FirstOfMore(logs: seq<LogItem>, hash: string)
    requires logs != []
    ensures var n := |logs| - 1;
      && (forall k: nat :: k < n ==> (FirstWith(logs, hash, k) <==> FirstWith(logs[..n], hash, k)))
      && (FirstWith(logs, hash, n) <==> logs[n].hash == hash && !Mentioned(logs[..n], hash))
  {
    var n := |logs| - 1;
    assert forall i :: 0 <= i < n ==> logs[i] == logs[..n][i];
  }

  /** And it is taken once. */
  lemma {:induction false} LogHashesOnce(o: Oracle, logs: seq<LogItem>)
    ensures forall i, j :: 0 <= i < j < |LogHashes(o, logs)| ==> LogHashes(o, logs)[i] != LogHashes(o, logs)[j]
    ensures forall h :: h in LogHashes(o, logs) ==> Mentioned(logs, h)
  {
    if logs != [] {
      LogHashesOnce(o, logs[..|logs| - 1]);
      assert logs[..|logs| - 1] + [logs[|logs| - 1]] == logs;
      MentionedStep(logs, |logs| - 1);
      assert logs[..|logs| - 1 + 1] == logs;
    }
  }

  /** Of transactions, the successful ones. */
  lemma {:induction false} TxHashesIff(transactions: seq<TxItem>, hash: string)
    ensures hash in TxHashes(transactions) <==>
              exists k :: 0 <= k < |transactions| && transactions[k] == TxItem(hash, 1)
  {
    if transactions != [] {
      var n := |transactions| - 1;
      TxHashesIff(transactions[..n], hash);
      assert forall i :: 0 <= i < n ==> transactions[i] == transactions[..n][i];
    }
  }

  /**
   * Processing a hash pays exactly when no withdrawal has that hash, no response of the crypto provider is on record
   * for it, and its verification succeeded with a positive amount for a pending row whose wallet exists.
   */
  lemma {:induction false} HashPays(l: Ledger, o: Oracle, hash: string)
    requires HashesResolve(l)
    ensures var after := ProcessedHash(l, o, hash);
      var pays := && hash != "" && hash in l.byHash && l.transactions[l.byHash[hash]].kind != WITHDRAWAL
                  && !(hash in l.responses && l.responses[hash] == CRYPTO)
                  && l.transactions[l.byHash[hash]].status == PENDING
                  && hash in o.verified && o.verified[hash] > 0.0
                  && l.transactions[l.byHash[hash]].recipient.Some?
                  && l.transactions[l.byHash[hash]].recipient.value in l.balances;
      && (after != l <==> pays)
      && (pays ==>
           var reference, row := l.byHash[hash], l.transactions[l.byHash[hash]];
           var wallet := row.recipient.value;
           after == l.(transactions := l.transactions[reference := row.(status := SUCCESS)],
                       balances := l.balances[wallet := l.balances[wallet] + o.verified[hash]]))
  {
    VerificationPays(l, hash, o.Books(hash));
  }

  // ---- The state a set of hashes leads to ----

  /** Whether this hash, met in this state, is credited. */
  predicate Credits(l: Ledger, o: Oracle, hash: string)
  {
    !Skipped(l, hash) && VerifiedCredits(l, hash, o.Books(hash))
  }

  function Payee(l: Ledger, hash: string): Option<Id>
  {
    if hash in l.byHash && l.byHash[hash] in l.transactions then l.transactions[l.byHash[hash]].recipient else None
  }

  /** What the hashes bring a wallet: each creditable one once. */
  ghost function Earned(l: Ledger, o: Oracle, hashes: set<string>, wallet: Id): map<string, real>
  {
    map h | h in hashes && h in o.verified && Credits(l, o, h) && Payee(l, h) == Some(wallet) :: o.verified[h]
  }

  ghost function SettledBalance(l: Ledger, o: Oracle, hashes: set<string>, wallet: Id): real
    requires wallet in l.balances
  {
    l.balances[wallet] + Sum(Earned(l, o, hashes, wallet))
  }

  function SettledStatus(l: Ledger, o: Oracle, hashes: set<string>, row: Transaction): Transaction
  {
    if row.hash.Some? && row.hash.value in hashes && Credits(l, o, row.hash.value) then row.(status := SUCCESS) else row
  }

  /** The final state as a function of the set of hashes alone. */
  ghost function SettledBy(l: Ledger, o: Oracle, hashes: set<string>): Ledger
  {
    l.(transactions := map r | r in l.transactions :: SettledStatus(l, o, hashes, l.transactions[r]),
       balances := map w | w in l.balances :: SettledBalance(l, o, hashes, w))
  }

  lemma {:induction false} SettledByNone(l: Ledger, o: Oracle)
    ensures SettledBy(l, o, {}) == l
  {
    forall w | w in l.balances ensures SettledBalance(l, o, {}, w) == l.balances[w] {
      assert Earned(l, o, {}, w) == map[];
    }
    assert SettledBy(l, o, {}).balances == l.balances;
    assert SettledBy(l, o, {}).transactions == l.transactions;
  }

  lemma {:induction false} SettledKeepsSkips(l: Ledger, o: Oracle, hashes: set<string>, hash: string)
    ensures Skipped(SettledBy(l, o, hashes), hash) <==> Skipped(l, hash)
    ensures Payee(SettledBy(l, o, hashes), hash) == Payee(l, hash)
  {
  }

  lemma {:induction false} PendingAfter(l: Ledger, o: Oracle, hashes: set<string>, hash: string)
    requires WellFormed(l) && hash in l.byHash
    ensures Pending(SettledBy(l, o, hashes), l.byHash[hash]) <==>
              Pending(l, l.byHash[hash]) && !(hash in hashes && Credits(l, o, hash))
  {
    assert l.transactions[l.byHash[hash]].hash == Some(hash);
  }

  /** After a set of hashes, another hash is credited if and only if it is new and would have been credited at first. */
  lemma {:induction false} CreditsAfter(l: Ledger, o: Oracle, hashes: set<string>, hash: string)
    requires WellFormed(l)
    ensures Credits(SettledBy(l, o, hashes), o, hash) <==> hash !in hashes && Credits(l, o, hash)
    ensures Payee(SettledBy(l, o, hashes), hash) == Payee(l, hash)
  {
    SettledKeepsSkips(l, o, hashes, hash);
    SettledKeys(l, o, hashes);
    if hash in l.byHash {
      PendingAfter(l, o, hashes, hash);
    }
  }

  lemma {:induction false} EarnedMore(l: Ledger, o: Oracle, hashes: set<string>, hash: string, wallet: Id)
    requires hash !in hashes && Credits(l, o, hash)
    ensures Sum(Earned(l, o, hashes + {hash}, wallet))
            == Sum(Earned(l, o, hashes, wallet)) + if Payee(l, hash) == Some(wallet) then o.verified[hash] else 0.0
  {
    var before, after := Earned(l, o, hashes, wallet), Earned(l, o, hashes + {hash}, wallet);
    if Payee(l, hash) == Some(wallet) {
      assert after == before[hash := o.verified[hash]];
      SumInsert(before, hash, o.verified[hash]);
    } else {
      assert after == before;
    }
  }

  lemma {:induction false} SettledRows(l: Ledger, o: Oracle, hashes: set<string>, hash: string)
    requires WellFormed(l) && Credits(l, o, hash)
    ensures var mid := SettledBy(l, o, hashes).transactions;
            var r := l.byHash[hash];
            mid[r := mid[r].(status := SUCCESS)] == SettledBy(l, o, hashes + {hash}).transactions
  {
    var r := l.byHash[hash];
    forall k | k in l.transactions && k != r
      ensures SettledStatus(l, o, hashes + {hash}, l.transactions[k]) == SettledStatus(l, o, hashes, l.transactions[k])
    {
      assert l.transactions[k].hash != Some(hash);
    }
    assert l.transactions[r].hash == Some(hash);
  }

  lemma {:induction false} SettledBalanceMore(l: Ledger, o: Oracle, hashes: set<string>, hash: string, w: Id)
    requires hash !in hashes && Credits(l, o, hash) && w in l.balances
    ensures SettledBy(l, o, hashes + {hash}).balances[w]
            == SettledBy(l, o, hashes).balances[w] + if Payee(l, hash).value == w then o.verified[hash] else 0.0
  {
    EarnedMore(l, o, hashes, hash, w);
  }

  lemma {:induction false} SettledKeys(l: Ledger, o: Oracle, hashes: set<string>)
    ensures SettledBy(l, o, hashes).balances.Keys == l.balances.Keys
  {
  }

  lemma {:induction false} AddedAt(before: map<Id, real>, after: map<Id, real>, wallet: Id, amount: real)
    requires wallet in before && after.Keys == before.Keys
    requires forall w :: w in before ==> after[w] == before[w] + if w == wallet then amount else 0.0
    ensures before[wallet := before[wallet] + amount] == after
  {
  }

  lemma {:induction false} SettledBalances(l: Ledger, o: Oracle, hashes: set<string>, hash: string)
    requires hash !in hashes && Credits(l, o, hash)
    ensures var mid := SettledBy(l, o, hashes).balances;
            var w := Payee(l, hash).value;
            mid[w := mid[w] + o.verified[hash]] == SettledBy(l, o, hashes + {hash}).balances
  {
    var mid, after := SettledBy(l, o, hashes).balances, SettledBy(l, o, hashes + {hash}).balances;
    SettledKeys(l, o, hashes);
    SettledKeys(l, o, hashes + {hash});
    forall w | w in mid ensures after[w] == mid[w] + if w == Payee(l, hash).value then o.verified[hash] else 0.0 {
      SettledBalanceMore(l, o, hashes, hash, w);
    }
    AddedAt(mid, after, Payee(l, hash).value, o.verified[hash]);
  }

  /** What processing a creditable hash writes. */
  lemma {:induction false} ProcessedCredits(l: Ledger, o: Oracle, hash: string)
    requires Credits(l, o, hash)
    ensures var r, w := l.byHash[hash], Payee(l, hash).value;
      ProcessedHash(l, o, hash) == l.(transactions := l.transactions[r := l.transactions[r].(status := SUCCESS)],
                                      balances := l.balances[w := l.balances[w] + o.verified[hash]])
  {
  }

  lemma {:induction false} SettledByCredited(l: Ledger, o: Oracle, hashes: set<string>, hash: string)
    requires WellFormed(l) && hash !in hashes && Credits(l, o, hash)
    ensures ProcessedHash(SettledBy(l, o, hashes), o, hash) == SettledBy(l, o, hashes + {hash})
  {
    CreditsAfter(l, o, hashes, hash);
    ProcessedCredits(SettledBy(l, o, hashes), o, hash);
    SettledRows(l, o, hashes, hash);
    SettledBalances(l, o, hashes, hash);
  }

  lemma {:induction false} SettledByIgnored(l: Ledger, o: Oracle, hashes: set<string>, hash: string)
    requires hash in hashes || !Credits(l, o, hash)
    ensures SettledBy(l, o, hashes + {hash}) == SettledBy(l, o, hashes)
  {
    forall w | w in l.balances ensures SettledBalance(l, o, hashes + {hash}, w) == SettledBalance(l, o, hashes, w) {
      assert Earned(l, o, hashes + {hash}, w) == Earned(l, o, hashes, w);
    }
    assert SettledBy(l, o, hashes + {hash}).transactions == SettledBy(l, o, hashes).transactions;
    assert SettledBy(l, o, hashes + {hash}).balances == SettledBy(l, o, hashes).balances;
  }

  lemma {:induction false} SettledByStep(l: Ledger, o: Oracle, hashes: set<string>, hash: string)
    requires WellFormed(l)
    ensures ProcessedHash(SettledBy(l, o, hashes), o, hash) == SettledBy(l, o, hashes + {hash})
  {
    CreditsAfter(l, o, hashes, hash);
    if hash !in hashes && Credits(l, o, hash) {
      SettledByCredited(l, o, hashes, hash);
    } else {
      SettledByIgnored(l, o, hashes, hash);
    }
  }

  /** Processing hashes one after another ends in the state of their set. */
  lemma {:induction false} ProcessedAllIsSettled(l: Ledger, o: Oracle, hashes: seq<string>)
    requires WellFormed(l)
    ensures ProcessedAll(l, o, hashes) == SettledBy(l, o, set h | h in hashes)
  {
    if hashes == [] {
      SettledByNone(l, o);
      assert (set h | h in hashes) == {};
    } else {
      var front, last := hashes[..|hashes| - 1], hashes[|hashes| - 1];
      ProcessedAllIsSettled(l, o, front);
      SettledByStep(l, o, (set h | h in front), last);
      assert (set h | h in hashes) == (set h | h in front) + {last};
    }
  }

  // ---- Whole deliveries ----

  function Delivered(l: Ledger, o: Oracle, payloads: seq<Payload>): Ledger
  {
    if payloads == [] then l
    else Processed(Delivered(l, o, payloads[..|payloads| - 1]), o, payloads[|payloads| - 1])
  }

  function AllHashes(o: Oracle, payloads: seq<Payload>): seq<string>
  {
    if payloads == [] then [] else AllHashes(o, payloads[..|payloads| - 1]) + Hashes(o, payloads[|payloads| - 1])
  }

  lemma {:induction false} ProcessedConcat(l: Ledger, o: Oracle, a: seq<string>, b: seq<string>)
    ensures ProcessedAll(l, o, a + b) == ProcessedAll(ProcessedAll(l, o, a), o, b)
    decreases |b|
  {
    if b == [] {
      assert a + b == a;
    } else {
      ProcessedConcat(l, o, a, b[..|b| - 1]);
      assert (a + b)[..|a + b| - 1] == a + b[..|b| - 1];
    }
  }

  lemma {:induction false} DeliveredIsProcessed(l: Ledger, o: Oracle, payloads: seq<Payload>)
    ensures Delivered(l, o, payloads) == ProcessedAll(l, o, AllHashes(o, payloads))
  {
    if payloads != [] {
      var front := payloads[..|payloads| - 1];
      DeliveredIsProcessed(l, o, front);
      ProcessedConcat(l, o, AllHashes(o, front), Hashes(o, payloads[|payloads| - 1]));
    }
  }

  /**
   * Confluence: with verification and price fixed, any two deliveries that take the same set of hashes to
   * verification end in the same state, whatever their order, repetitions and split into payloads; in that
   * state every balance has gained each creditable hash of its deposits once.
   */
  lemma {:induction false} Confluence(l: Ledger, o: Oracle, these: seq<Payload>, those: seq<Payload>)
    requires WellFormed(l)
    requires (set h | h in AllHashes(o, these)) == (set h | h in AllHashes(o, those))
    ensures Delivered(l, o, these) == Delivered(l, o, those) == SettledBy(l, o, set h | h in AllHashes(o, these))
  {
    DeliveredIsProcessed(l, o, these);
    DeliveredIsProcessed(l, o, those);
    ProcessedAllIsSettled(l, o, AllHashes(o, these));
    ProcessedAllIsSettled(l, o, AllHashes(o, those));
  }

  /** The hashes a payload contains. */
  ghost function Contained(payload: Payload): set<string>
  {
    match payload
    case NoBlock => {}
    case Block(transactions, logs) =>
      if transactions == [] then set log | log in logs && log.hash != "" :: log.hash
      else set tx | tx in transactions && tx.status == 1 :: tx.hash
  }

  predicate AllDecode(o: Oracle, payload: Payload)
  {
    payload.Block? && payload.transactions == [] ==> forall log :: log in payload.logs ==> o.Decodes(log.data)
  }

  lemma {:induction false} LogHashesContained(o: Oracle, logs: seq<LogItem>)
    requires forall log :: log in logs ==> o.Decodes(log.data)
    ensures forall h :: h in LogHashes(o, logs) <==> h != "" && Mentioned(logs, h)
  {
    if logs != [] {
      var front := logs[..|logs| - 1];
      LogHashesContained(o, front);
      MentionedStep(logs, |logs| - 1);
      assert logs[..|logs|] == logs;
    }
  }

  lemma {:induction false} TxHashesContained(transactions: seq<TxItem>)
    ensures forall h :: h in TxHashes(transactions) <==>
              exists tx :: tx in transactions && tx.status == 1 && tx.hash == h
  {
    if transactions != [] {
      var front, last := transactions[..|transactions| - 1], transactions[|transactions| - 1];
      TxHashesContained(front);
      assert forall tx :: tx in transactions <==> tx in front || tx == last;
    }
  }

  /** When all log data decode, the hashes taken to verification are the hashes contained. */
  lemma {:induction false} DecodableHashes(o: Oracle, payload: Payload)
    requires AllDecode(o, payload)
    ensures (set h | h in Hashes(o, payload)) == Contained(payload)
  {
    match payload
    case NoBlock =>
    case Block(transactions, logs) =>
      if transactions == [] {
        LogHashesContained(o, logs);
        forall h | h in Contained(payload) ensures h in Hashes(o, payload) {
          var log :| log in logs && log.hash != "" && log.hash == h;
          var i :| 0 <= i < |logs| && logs[i] == log;
          assert Mentioned(logs, h);
        }
        forall h | h in Hashes(o, payload) ensures h in Contained(payload) {
          var i :| 0 <= i < |logs| && logs[i].hash == h;
          assert logs[i] in logs;
        }
      } else {
        TxHashesContained(transactions);
      }
  }

  ghost function AllContained(payloads: seq<Payload>): set<string>
  {
    if payloads == [] then {} else AllContained(payloads[..|payloads| - 1]) + Contained(payloads[|payloads| - 1])
  }

  lemma {:induction false} AllDecodableHashes(o: Oracle, payloads: seq<Payload>)
    requires forall p :: p in payloads ==> AllDecode(o, p)
    ensures (set h | h in AllHashes(o, payloads)) == AllContained(payloads)
  {
    if payloads != [] {
      var front, last := payloads[..|payloads| - 1], payloads[|payloads| - 1];
      AllDecodableHashes(o, front);
      DecodableHashes(o, last);
      assert (set h | h in AllHashes(o, payloads))
             == (set h | h in AllHashes(o, front)) + (set h | h in Hashes(o, last));
    }
  }

  /** So when all log data decode, only the set of contained hashes matters. */
  lemma {:induction false} DecodableConfluence(l: Ledger, o: Oracle, these: seq<Payload>, those: seq<Payload>)
    requires WellFormed(l)
    requires forall p :: p in these + those ==> AllDecode(o, p)
    requires AllContained(these) == AllContained(those)
    ensures Delivered(l, o, these) == Delivered(l, o, those)
  {
    assert forall p :: p in these ==> p in these + those;
    assert forall p :: p in those ==> p in these + those;
    AllDecodableHashes(o, these);
    AllDecodableHashes(o, those);
    Confluence(l, o, these, those);
  }

  // ---- Exactly which hashes matter ----

  /** The hashes of a set that would be credited from here. */
  ghost function Creditable(l: Ledger, o: Oracle, hashes: set<string>): set<string>
  {
    set h | h in hashes && Credits(l, o, h)
  }

  /** Settling depends on the creditable hashes only, and on each of them. */
  lemma {:induction false} SettledIffCreditable(l: Ledger, o: Oracle, these: set<string>, those: set<string>)
    requires WellFormed(l)
    ensures SettledBy(l, o, these) == SettledBy(l, o, those) <==> Creditable(l, o, these) == Creditable(l, o, those)
  {
    if Creditable(l, o, these) == Creditable(l, o, those) {
      SameCreditable(l, o, these, those);
    }
    if SettledBy(l, o, these) == SettledBy(l, o, those) {
      forall h ensures h in Creditable(l, o, these) <==> h in Creditable(l, o, those) {
        CreditShows(l, o, these, h);
        CreditShows(l, o, those, h);
      }
    }
  }

  lemma {:induction false} SameCreditable(l: Ledger, o: Oracle, these: set<string>, those: set<string>)
    requires Creditable(l, o, these) == Creditable(l, o, those)
    ensures SettledBy(l, o, these) == SettledBy(l, o, those)
  {
    forall h ensures h in these && Credits(l, o, h) <==> h in those && Credits(l, o, h) {
      assert h in Creditable(l, o, these) <==> h in Creditable(l, o, those);
    }
    forall w | w in l.balances ensures SettledBalance(l, o, these, w) == SettledBalance(l, o, those, w) {
      assert Earned(l, o, these, w) == Earned(l, o, those, w);
    }
    assert SettledBy(l, o, these).balances == SettledBy(l, o, those).balances;
    assert SettledBy(l, o, these).transactions == SettledBy(l, o, those).transactions;
  }

  /** Whether a creditable hash was settled can be read off its row. */
  lemma {:induction false} CreditShows(l: Ledger, o: Oracle, hashes: set<string>, h: string)
    requires WellFormed(l)
    ensures Credits(l, o, h) ==>
              && h in l.byHash && l.byHash[h] in SettledBy(l, o, hashes).transactions
              && (SettledBy(l, o, hashes).transactions[l.byHash[h]].status == SUCCESS <==> h in hashes)
  {
  }

  /** Two deliveries end in the same state if and only if they take the same creditable hashes to verification. */
  lemma {:induction false} DeliveriesAgreeIff(l: Ledger, o: Oracle, these: seq<Payload>, those: seq<Payload>)
    requires WellFormed(l)
    ensures Delivered(l, o, these) == Delivered(l, o, those) <==>
              Creditable(l, o, set h | h in AllHashes(o, these)) == Creditable(l, o, set h | h in AllHashes(o, those))
  {
    DeliveredIsProcessed(l, o, these);
    DeliveredIsProcessed(l, o, those);
    ProcessedAllIsSettled(l, o, AllHashes(o, these));
    ProcessedAllIsSettled(l, o, AllHashes(o, those));
    SettledIffCreditable(l, o, (set h | h in AllHashes(o, these)), (set h | h in AllHashes(o, those)));
  }

  lemma {:induction false} UndecodableHides(o: Oracle, hash: string, good: string, bad: string)
    requires hash != "" && o.Decodes(good) && !o.Decodes(bad)
    ensures Hashes(o, Block([], [LogItem(hash, bad), LogItem(hash, good)])) == []
    ensures Hashes(o, Block([], [LogItem(hash, good), LogItem(hash, bad)])) == [hash]
  {
    var first, second := [LogItem(hash, bad), LogItem(hash, good)], [LogItem(hash, good), LogItem(hash, bad)];
    assert first[..1] == [LogItem(hash, bad)] && second[..1] == [LogItem(hash, good)];
    assert first[..1][0].hash == hash && second[..1][0].hash == hash;
    assert Mentioned(first[..1], hash) && Mentioned(second[..1], hash);
    assert LogHashes(o, first[..1]) == [] by { assert first[..1][..0] == []; }
    assert LogHashes(o, second[..1]) == [hash] by {
      assert second[..1][..0] == [];
      assert !Mentioned([], hash);
    }
  }

  /** A single delivery is the processing of what its payload takes to verification. */
  lemma {:induction false} OneDelivery(l: Ledger, o: Oracle, payload: Payload)
    ensures Delivered(l, o, [payload]) == ProcessedAll(l, o, Hashes(o, payload))
    ensures AllContained([payload]) == Contained(payload)
  {
    assert [payload][..0] == [];
    assert AllHashes(o, [payload][..0]) == [] && AllContained([payload][..0]) == {};
    assert AllHashes(o, [payload]) == Hashes(o, payload);
    DeliveredIsProcessed(l, o, [payload]);
  }

  lemma {:induction false} TwoLogsContain(hash: string, first: string, second: string)
    requires hash != ""
    ensures Contained(Block([], [LogItem(hash, first), LogItem(hash, second)])) == {hash}
  {
    var logs := [LogItem(hash, first), LogItem(hash, second)];
    assert logs[0].hash == hash && logs[1].hash == hash;
  }

  /**
   * Undecodable data does matter: when the first log of a creditable hash does not decode, the delivery changes
   * nothing; with the same two logs in the other order it settles the deposit.
   */
  lemma {:induction false} UndecodableOrderMatters(l: Ledger, o: Oracle, hash: string, good: string, bad: string)
    requires WellFormed(l) && Credits(l, o, hash) && o.Decodes(good) && !o.Decodes(bad)
    ensures var hidden, seen := [Block([], [LogItem(hash, bad), LogItem(hash, good)])],
                                [Block([], [LogItem(hash, good), LogItem(hash, bad)])];
      && AllContained(hidden) == AllContained(seen)
      && Delivered(l, o, hidden) == l
      && hash in l.byHash && l.byHash[hash] in Delivered(l, o, seen).transactions
      && Delivered(l, o, seen).transactions[l.byHash[hash]].status == SUCCESS
      && Pending(l, l.byHash[hash])
  {
    var hidden, seen := Block([], [LogItem(hash, bad), LogItem(hash, good)]),
                        Block([], [LogItem(hash, good), LogItem(hash, bad)]);
    UndecodableHides(o, hash, good, bad);
    OneDelivery(l, o, hidden);
    OneDelivery(l, o, seen);
    TwoLogsContain(hash, bad, good);
    TwoLogsContain(hash, good, bad);
    ProcessedAllIsSettled(l, o, [hash]);
    CreditShows(l, o, {hash}, hash);
    assert (set h | h in [hash]) == {hash};
  }
}
