/**
 * Verification of an on-chain deposit: the decision tree over a transaction
 * receipt, and the decoding of the two-word log data it rests on.
 */
module CryptoDeposit {
  import opened Common

  // ---- Text ----

  /** The substring from one position to another; positions past the end are clamped. */
  function Slice(s: string, from: nat, to: nat): string
  {
    var hi := if to < |s| then to else |s|;
    var lo := if from < hi then from else hi;
    s[lo..hi]
  }

  function LowerChar(c: char): char
  {
    if 'A' <= c <= 'Z' then (c as int + 32) as char else c
  }

  function Lower(s: string): (r: string)
    ensures |r| == |s| && forall i :: 0 <= i < |s| ==> r[i] == LowerChar(s[i])
  {
    seq(|s|, i requires 0 <= i < |s| => LowerChar(s[i]))
  }

  predicate IsHexChar(c: char) { '0' <= c <= '9' || 'a' <= c <= 'f' || 'A' <= c <= 'F' }

  predicate IsHex(s: string) { forall i :: 0 <= i < |s| ==> IsHexChar(s[i]) }

  function DigitValue(c: char): (d: nat)
    requires IsHexChar(c)
    ensures d < 16
  {
    if '0' <= c <= '9' then c as int - '0' as int
    else if 'a' <= c <= 'f' then c as int - 'a' as int + 10
    else c as int - 'A' as int + 10
  }

  function DigitChar(d: nat): (c: char)
    requires d < 16
  {
    if d < 10 then ('0' as int + d) as char else ('a' as int + (d - 10)) as char
  }

  function HexValue(s: string): nat
    requires IsHex(s)
  {
    if s == "" then 0 else HexValue(s[..|s| - 1]) * 16 + DigitValue(s[|s| - 1])
  }

  /** `n` in lower-case hexadecimal, `width` digits wide. */
  function Hex(n: nat, width: nat): (s: string)
    ensures |s| == width && IsHex(s)
  {
    if width == 0 then "" else Hex(n / 16, width - 1) + [DigitChar(n % 16)]
  }

  /** BigInt of "0x" and these digits; an empty or malformed literal throws. */
  function BigIntHex(digits: string): Option<nat>
  {
    if digits != "" && IsHex(digits) then Some(HexValue(digits)) else None
  }

  predicate HasLower(s: string) { exists i :: 0 <= i < |s| && 'a' <= s[i] <= 'f' }

  predicate HasUpper(s: string) { exists i :: 0 <= i < |s| && 'A' <= s[i] <= 'F' }

  /**
   * getAddress on "0x" and these digits: forty hex digits, in one case or with a correct
   * checksum. The result is given in lower case.
   */
  function GetAddress(digits: string, checksummed: string -> bool): Option<string>
  {
    if |digits| == 40 && IsHex(digits) && (HasLower(digits) && HasUpper(digits) ==> checksummed(digits))
    then Some("0x" + Lower(digits))
    else None
  }

  // ---- Log data: two 32-byte words after "0x" ----

  function DecodeSender(data: string, checksummed: string -> bool): Option<string>
  {
    GetAddress(Slice(data, 26, 66), checksummed)
  }

  function DecodeAmount(data: string): Option<nat>
  {
    BigIntHex(Slice(data, 66, |data|))
  }

  /** The ABI encoding of (address, uint256): each value right-aligned in a 32-byte word. */
  function Encode(address: nat, amount: nat): (s: string)
    ensures |s| == 130
  {
    "0x" + Hex(address, 64) + Hex(amount, 64)
  }

  // ---- verifyPayment ----

  datatype Log = Log(address: string, data: string)

  datatype Receipt = Receipt(blockNumber: Option<nat>, status: Option<nat>, logs: seq<Log>)

  datatype RpcReply = RpcFailed | NoReceipt | Found(receipt: Receipt)

  datatype Verification =
    | Failed
    | Pending
    | Verified(sender: string, amountWei: nat)

  const WEI_PER_MON: nat := 1_000_000_000_000_000_000

  function FormatEther(wei: nat): real { wei as real / (WEI_PER_MON as real) }

  function FirstLogOf(logs: seq<Log>, contract: string): Option<Log>
  {
    if logs == [] then None
    else if Lower(logs[0].address) == Lower(contract) then Some(logs[0])
    else FirstLogOf(logs[1..], contract)
  }

  /** `number` is the floating-point number a decimal text is parsed to. */
  function VerifyPayment(reply: RpcReply, contract: string, buyerAddress: Option<string>,
                         transferedAmount: Option<real>, checksummed: string -> bool,
                         number: real -> real): Verification
  {
    match reply
    case RpcFailed => Failed
    case NoReceipt => Failed
    case Found(receipt) =>
      if receipt.blockNumber.None? || receipt.blockNumber.value == 0 then Pending
      else if receipt.status == Some(0) then Failed
      else
        var log := FirstLogOf(receipt.logs, contract);
        if log.None? || log.value.data == "" then Failed
        else
          var sender := DecodeSender(log.value.data, checksummed);
          if sender.None? then Failed
          else
            var amount := DecodeAmount(log.value.data);
            if amount.None? || amount.value == 0 then Failed
            else if buyerAddress.Some? && buyerAddress.value != ""
                && sender.value != Lower(buyerAddress.value) then Failed
            else if transferedAmount.Some? && transferedAmount.value != 0.0
                    && transferedAmount.value != number(FormatEther(amount.value)) then Failed
            else Verified(sender.value, amount.value)
  }

  // ---- Hexadecimal round trips ----

  function Pow16(n: nat): (p: nat)
    ensures p > 0
  {
    if n == 0 then 1 else 16 * Pow16(n - 1)
  }

  lemma {:induction false} Pow16Sum(a: nat, b: nat)
    ensures Pow16(a + b) == Pow16(a) * Pow16(b)
  {
    if a > 0 {
      Pow16Sum(a - 1, b);
      Regroup(Pow16(a - 1), Pow16(b));
    }
  }

  lemma {:induction false} Regroup(p: nat, q: nat)
    ensures 16 * (p * q) == (16 * p) * q
  {
  }

  const TWO_160: nat := 0x1_00000000_00000000_00000000_00000000_00000000
  const TWO_256: nat := 0x1_00000000_00000000_00000000_00000000_00000000_00000000_00000000_00000000

  /** Forty digits hold exactly the addresses below 2^160, sixty-four the amounts below 2^256. */
  lemma {:induction false} WordSizes()
    ensures Pow16(40) == TWO_160 && Pow16(64) == TWO_256
  {
    assert Pow16(8) == 0x1_00000000 by { Pow16Sum(4, 4); }
    assert Pow16(16) == 0x1_00000000_00000000 by { Pow16Sum(8, 8); }
    assert Pow16(32) == 0x1_00000000_00000000_00000000_00000000 by { Pow16Sum(16, 16); }
    assert Pow16(40) == TWO_160 by { Pow16Sum(32, 8); }
    assert Pow16(64) == TWO_256 by { Pow16Sum(32, 32); }
  }

  lemma {:induction false} HexValueOfHex(n: nat, width: nat)
    requires n < Pow16(width)
    ensures HexValue(Hex(n, width)) == n
  {
    if width > 0 {
      HexValueOfHex(n / 16, width - 1);
      var s := Hex(n, width);
      assert s[..width - 1] == Hex(n / 16, width - 1);
    }
  }

  lemma {:induction false} HexOfHexValue(s: string)
    requires IsHex(s)
    ensures HexValue(s) < Pow16(|s|)
    ensures Hex(HexValue(s), |s|) == Lower(s)
  {
    if s != "" {
      var front := s[..|s| - 1];
      HexOfHexValue(front);
      var d := DigitValue(s[|s| - 1]);
      assert HexValue(s) / 16 == HexValue(front) && HexValue(s) % 16 == d;
      assert Lower(s) == Lower(front) + [LowerChar(s[|s| - 1])];
    }
  }

  /** Leading zeros pad a number that needs fewer digits. */
  lemma {:induction false} HexPadded(n: nat, width: nat, wider: nat)
    requires n < Pow16(width) && width <= wider
    ensures Hex(n, wider) == Hex(0, wider - width) + Hex(n, width)
    decreases wider
  {
    if width == 0 {
      assert Hex(n, wider) == Hex(0, wider) + "";
    } else {
      var front, last := Hex(n / 16, width - 1), [DigitChar(n % 16)];
      HexPadded(n / 16, width - 1, wider - 1);
      assert Hex(n, wider) == Hex(0, wider - width) + front + last;
      assert Hex(n, width) == front + last;
    }
  }

  lemma {:induction false} HexIsLower(n: nat, width: nat)
    ensures Lower(Hex(n, width)) == Hex(n, width)
    ensures !HasUpper(Hex(n, width))
  {
    if width > 0 {
      HexIsLower(n / 16, width - 1);
    }
  }

  /** The digits of zero are zeros. */
  lemma {:induction false} HexZero(width: nat)
    ensures forall i :: 0 <= i < width ==> Hex(0, width)[i] == '0'
  {
    if width > 0 {
      HexZero(width - 1);
    }
  }

  // ---- Decoding undoes encoding ----

  lemma {:induction false} EncodedWords(address: nat, amount: nat)
    requires address < TWO_160
    ensures Slice(Encode(address, amount), 26, 66) == Hex(address, 40)
    ensures Slice(Encode(address, amount), 66, 130) == Hex(amount, 64)
  {
    WordSizes();
    HexPadded(address, 40, 64);
    var head := "0x" + Hex(0, 24);
    assert Encode(address, amount) == head + Hex(address, 40) + Hex(amount, 64);
    Pieces(head, Hex(address, 40), Hex(amount, 64));
  }

  lemma {:induction false} Pieces(a: string, b: string, c: string)
    ensures Slice(a + b + c, |a|, |a| + |b|) == b
    ensures Slice(a + b + c, |a| + |b|, |a| + |b| + |c|) == c
  {
  }

  /** Every address below 2^160 and amount below 2^256 survives encoding and decoding, whatever the checksum rule. */
  lemma {:induction false} DecodeEncode(address: nat, amount: nat, checksummed: string -> bool)
    requires address < TWO_160 && amount < TWO_256
    ensures DecodeSender(Encode(address, amount), checksummed) == Some("0x" + Hex(address, 40))
    ensures HexValue(Hex(address, 40)) == address
    ensures DecodeAmount(Encode(address, amount)) == Some(amount)
  {
    WordSizes();
    EncodedWords(address, amount);
    HexIsLower(address, 40);
    HexValueOfHex(address, 40);
    HexValueOfHex(amount, 64);
  }

  /** Log data in the shape the contract emits: two hex words after "0x", the first zero-padded on the left. */
  predicate TwoWords(data: string)
  {
    && |data| == 130
    && data[..2] == "0x"
    && IsHex(data[2..])
    && (forall i :: 2 <= i < 26 ==> data[i] == '0')
  }

  /** What decoding reads: the last forty digits of the first word, and the second word. */
  lemma {:induction false} DecodedWords(data: string, checksummed: string -> bool)
    requires TwoWords(data)
    ensures IsHex(data[26..66]) && IsHex(data[66..])
    ensures DecodeSender(data, checksummed) == GetAddress(data[26..66], checksummed)
    ensures DecodeAmount(data) == Some(HexValue(data[66..]))
  {
    HexSlice(data, 26, 66);
    HexSlice(data, 66, 130);
    assert data[66..130] == data[66..];
  }

  lemma {:induction false} EncodedHexWords(word: string, amount: string)
    requires |word| == 40 && IsHex(word) && |amount| == 64 && IsHex(amount)
    ensures Encode(HexValue(word), HexValue(amount)) == "0x" + (Hex(0, 24) + Lower(word)) + Lower(amount)
  {
    HexOfHexValue(word);
    HexOfHexValue(amount);
    HexPadded(HexValue(word), 40, 64);
  }

  /** Encoding what was decoded gives the data back, up to the case of its letters. */
  lemma {:induction false} EncodeDecode(data: string, checksummed: string -> bool)
    requires TwoWords(data)
    requires DecodeSender(data, checksummed).Some?
    ensures DecodeSender(data, checksummed).value == "0x" + Lower(data[26..66])
    ensures DecodeAmount(data).Some? && IsHex(data[26..66])
    ensures Encode(HexValue(data[26..66]), DecodeAmount(data).value) == Lower(data)
  {
    DecodedWords(data, checksummed);
    EncodedHexWords(data[26..66], data[66..]);
    SplitWords(data);
  }

  lemma {:induction false} HexSlice(data: string, lo: nat, hi: nat)
    requires TwoWords(data) && 2 <= lo <= hi <= 130
    ensures IsHex(data[lo..hi])
  {
    forall i | 0 <= i < hi - lo ensures IsHexChar(data[lo..hi][i]) {
      assert data[lo..hi][i] == data[2..][lo - 2 + i];
    }
  }

  lemma {:induction false} SplitWords(data: string)
    requires TwoWords(data)
    ensures Lower(data) == "0x" + (Hex(0, 24) + Lower(data[26..66])) + Lower(data[66..])
  {
    HexZero(24);
    var lower := Lower(data);
    assert lower[..2] == "0x" by {
      assert data[0] == data[..2][0] && data[1] == data[..2][1];
    }
    assert lower[2..26] == Hex(0, 24);
    assert lower[26..66] == Lower(data[26..66]);
    assert lower[66..] == Lower(data[66..]);
    assert lower == lower[..2] + (lower[2..26] + lower[26..66]) + lower[66..];
  }

  // ---- The decision tree over encoded deposits ----

  /** A mined, unreverted receipt whose first log of the contract carries this deposit. */
  predicate Carries(receipt: Receipt, contract: string, address: nat, amount: nat)
  {
    && receipt.blockNumber.Some? && receipt.blockNumber.value != 0
    && receipt.status != Some(0)
    && FirstLogOf(receipt.logs, contract).Some?
    && FirstLogOf(receipt.logs, contract).value.data == Encode(address, amount)
  }

  /**
   * Such a deposit is verified, with exactly its sender and amount, if and only if the amount is not
   * zero and agrees with the expected one, and the sender is the expected buyer, where these are given.
   */
  lemma {:induction false} VerifyEncoded(receipt: Receipt, contract: string, address: nat, amount: nat,
                                         buyerAddress: Option<string>, transferedAmount: Option<real>,
                                         checksummed: string -> bool, number: real -> real)
    requires address < TWO_160 && amount < TWO_256
    requires Carries(receipt, contract, address, amount)
    ensures var v := VerifyPayment(Found(receipt), contract, buyerAddress, transferedAmount, checksummed, number);
            var sameBuyer := buyerAddress.None? || buyerAddress.value == ""
                             || Lower(buyerAddress.value) == "0x" + Hex(address, 40);
            var sameAmount := transferedAmount.None? || transferedAmount.value == 0.0
                              || transferedAmount.value == number(amount as real / 1_000_000_000_000_000_000.0);
            v == if amount != 0 && sameBuyer && sameAmount then Verified("0x" + Hex(address, 40), amount) else Failed
  {
    DecodeEncode(address, amount, checksummed);
  }

  /** The first log of the contract, whatever the case of the addresses. */
  predicate FirstAt(logs: seq<Log>, contract: string, k: nat)
  {
    && k < |logs| && Lower(logs[k].address) == Lower(contract)
    && forall i :: 0 <= i < k ==> Lower(logs[i].address) != Lower(contract)
  }

  lemma {:induction false} FirstLogIsFirst(logs: seq<Log>, contract: string)
    ensures FirstLogOf(logs, contract).None? <==>
              forall i :: 0 <= i < |logs| ==> Lower(logs[i].address) != Lower(contract)
    ensures forall k: nat :: FirstAt(logs, contract, k) ==> FirstLogOf(logs, contract) == Some(logs[k])
    ensures FirstLogOf(logs, contract).Some? ==> exists k: nat :: FirstAt(logs, contract, k)
  {
    if logs != [] {
      var rest := logs[1..];
      FirstLogIsFirst(rest, contract);
      if Lower(logs[0].address) == Lower(contract) {
        assert FirstAt(logs, contract, 0);
      } else {
        forall k: nat | FirstAt(logs, contract, k) ensures FirstLogOf(logs, contract) == Some(logs[k]) {
          assert rest[k - 1] == logs[k] && FirstAt(rest, contract, k - 1);
        }
        forall k: nat | FirstAt(rest, contract, k) ensures FirstAt(logs, contract, k + 1) {
        }
        assert (forall i :: 0 <= i < |rest| ==> Lower(rest[i].address) != Lower(contract)) <==>
          forall i :: 0 <= i < |logs| ==> Lower(logs[i].address) != Lower(contract) by {
          forall i | 0 < i < |logs| ensures logs[i] == rest[i - 1] {
          }
        }
      }
    }
  }

  /** A payment without a block is pending. */
  lemma {:induction false} PendingIff(reply: RpcReply, contract: string, buyerAddress: Option<string>,
                                      transferedAmount: Option<real>, checksummed: string -> bool, number: real -> real)
    ensures VerifyPayment(reply, contract, buyerAddress, transferedAmount, checksummed, number) == Pending <==>
              reply.Found? && reply.receipt.blockNumber in {None, Some(0)}
  {
  }

  /**
   * A payment is verified if and only if its receipt is mined and not reverted and the first log of the contract
   * decodes to a sender and an amount other than zero that agree with the expected ones, where these are given.
   */
  lemma {:induction false} VerifiedIff(receipt: Receipt, contract: string, buyerAddress: Option<string>,
                                       transferedAmount: Option<real>, checksummed: string -> bool,
                                       number: real -> real, sender: string, wei: nat)
    ensures VerifyPayment(Found(receipt), contract, buyerAddress, transferedAmount, checksummed, number)
            == Verified(sender, wei) <==>
      && receipt.blockNumber !in {None, Some(0)} && receipt.status != Some(0)
      && wei != 0
      && (buyerAddress in {None, Some("")} || Lower(buyerAddress.value) == sender)
      && (transferedAmount in {None, Some(0.0)}
          || transferedAmount.value == number(wei as real / 1_000_000_000_000_000_000.0))
      && exists k: nat :: FirstAt(receipt.logs, contract, k) && receipt.logs[k].data != ""
           && DecodeSender(receipt.logs[k].data, checksummed) == Some(sender)
           && DecodeAmount(receipt.logs[k].data) == Some(wei)
  {
    FirstLogIsFirst(receipt.logs, contract);
  }

  /**
   * Which log data decode. The sender: forty hexadecimal digits from position 26 on, all in one case or with a correct
   * checksum. The amount: one or more hexadecimal digits from position 66 on, and nothing else.
   */
  lemma {:induction false} DecodesIff(data: string, checksummed: string -> bool)
    ensures DecodeAmount(data).Some? <==> |data| > 66 && IsHex(data[66..])
    ensures DecodeSender(data, checksummed).Some? <==>
      && |data| >= 66 && IsHex(data[26..66])
      && ((forall i :: 26 <= i < 66 ==> !('A' <= data[i] <= 'F'))
          || (forall i :: 26 <= i < 66 ==> !('a' <= data[i] <= 'f'))
          || checksummed(data[26..66]))
  {
    if |data| >= 66 {
      var word := data[26..66];
      assert forall i :: 0 <= i < 40 ==> word[i] == data[26 + i];
      assert HasUpper(word) <==> exists i :: 26 <= i < 66 && 'A' <= data[i] <= 'F' by {
        if i :| 26 <= i < 66 && 'A' <= data[i] <= 'F' {
          assert word[i - 26] == data[i];
        }
      }
      assert HasLower(word) <==> exists i :: 26 <= i < 66 && 'a' <= data[i] <= 'f' by {
        if i :| 26 <= i < 66 && 'a' <= data[i] <= 'f' {
          assert word[i - 26] == data[i];
        }
      }
    }
    assert Slice(data, 66, |data|) == if |data| > 66 then data[66..] else "";
  }

  /** Nothing is verified but from a mined, unreverted receipt with a decodable log of the contract itself. */
  lemma {:induction false} VerifiedIsOnChain(reply: RpcReply, contract: string, buyerAddress: Option<string>,
                                             transferedAmount: Option<real>, checksummed: string -> bool,
                                             number: real -> real)
    requires VerifyPayment(reply, contract, buyerAddress, transferedAmount, checksummed, number).Verified?
    ensures reply.Found? && reply.receipt.status != Some(0) && reply.receipt.blockNumber.Some?
    ensures var v := VerifyPayment(reply, contract, buyerAddress, transferedAmount, checksummed, number);
            exists log :: (
              && log in reply.receipt.logs && Lower(log.address) == Lower(contract)
              && DecodeSender(log.data, checksummed) == Some(v.sender)
              && DecodeAmount(log.data) == Some(v.amountWei))
  {
    FirstLogIsOurs(reply.receipt.logs, contract);
  }

  lemma {:induction false} FirstLogIsOurs(logs: seq<Log>, contract: string)
    ensures var log := FirstLogOf(logs, contract);
            log.Some? ==> log.value in logs && Lower(log.value.address) == Lower(contract)
  {
    if logs != [] {
      FirstLogIsOurs(logs[1..], contract);
    }
  }
}
