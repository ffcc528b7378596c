/** The Polygon side of the bridge as the handler sees it: transaction
    receipts and their logs, the bounded receipt poller, the scan for the
    burn transfer, and the gas-price policy. */
module Polygon {
  import opened Wrappers
  import opened Addresses

  /** An event log: its topics (each a "0x"-prefixed hex word) and its data
      as `BigNumber.from` reads it, None where the text is not a hex number
      (an ERC-721 Transfer log, say, has data "0x") and the call throws. The
      emitting contract is not part of it because the handler never looks at
      it. */
  datatype Log = Log(topics: seq<string>, data: Option<nat>)

  /** A receipt; `blockHash` is "" where the node returned null. */
  datatype Receipt = Receipt(blockHash: string, logs: seq<Log>)

  /** One call of `getTransactionReceipt`: it threw, returned null, or returned a receipt. */
  datatype Fetch = FetchError | FetchNull | FetchReceipt(receipt: Receipt)

  /** `keccak256("Transfer(address,address,uint256)")`, the ERC-20 Transfer event topic. */
  const TransferTopic: string := "0xddf252ad1be2c89b69c2b068fc378daa952ba7f163c4a11628f55a4df523b3ef"

  /** Gas limit used for the burn when estimation fails. */
  const FallbackGasLimit: nat := 200000

  /** A receipt the poller accepts: a block hash that is present and not "0x0". */
  predicate IsConfirmed(r: Receipt)
  {
    r.blockHash != "" && r.blockHash != "0x0"
  }

  predicate IsConfirmedFetch(f: Fetch)
  {
    f.FetchReceipt? && IsConfirmed(f.receipt)
  }

  /** The receipt the poller returns for a given sequence of attempts, or None on timeout. */
  function FirstConfirmed(attempts: seq<Fetch>): (r: Option<Receipt>)
    ensures r.Some? ==> IsConfirmed(r.value) && FetchReceipt(r.value) in attempts
  {
    if attempts == [] then None
    else if IsConfirmedFetch(attempts[0]) then Some(attempts[0].receipt)
    else FirstConfirmed(attempts[1..])
  }

  /** Polls for a confirmed receipt. `attempts` lists what each call of
      `getTransactionReceipt` made before the deadline returned; its length
      stands for the 60-second timeout. Errors and unconfirmed receipts are
      ignored and the next attempt is made; None is the timeout. */
  method PollTransactionReceipt(attempts: seq<Fetch>) returns (receipt: Option<Receipt>)
    ensures receipt == FirstConfirmed(attempts)
  {
    var i := 0;
    while i < |attempts|
      invariant 0 <= i <= |attempts|
      invariant FirstConfirmed(attempts) == FirstConfirmed(attempts[i..])
    {
      var fetched: Option<Receipt> := None;
      match attempts[i] {
        case FetchReceipt(r) => fetched := Some(r);
        case FetchError =>
        case FetchNull =>
      }
      if fetched.Some? && IsConfirmed(fetched.value) {
        return fetched;
      }
      assert attempts[i..][1..] == attempts[i + 1..];
      i := i + 1;
    }
    return None;
  }

  /** The poller returns the receipt of the first confirmed attempt... */
  lemma {:induction false} FirstConfirmedAt(attempts: seq<Fetch>, k: nat)
    requires k < |attempts| && IsConfirmedFetch(attempts[k])
    requires forall j :: 0 <= j < k ==> !IsConfirmedFetch(attempts[j])
    ensures FirstConfirmed(attempts) == Some(attempts[k].receipt)
  {
    if k > 0 {
      assert forall j :: 0 <= j < k - 1 ==> attempts[1..][j] == attempts[j + 1];
      FirstConfirmedAt(attempts[1..], k - 1);
    }
  }

  /** ...and times out exactly when no attempt was confirmed. */
  lemma {:induction false} FirstConfirmedNone(attempts: seq<Fetch>)
    ensures FirstConfirmed(attempts).None? <==> forall j :: 0 <= j < |attempts| ==> !IsConfirmedFetch(attempts[j])
  {
    if attempts != [] {
      FirstConfirmedNone(attempts[1..]);
      assert forall j :: 1 <= j < |attempts| ==> attempts[1..][j - 1] == attempts[j];
    }
  }

  /** How the scan treats one log: not a transfer to the deposit address, the
      burn transfer, or a log on which the scan throws: a Transfer-topic log
      with fewer than three topics, where `topics[2].slice` throws, or a
      transfer to the deposit address whose data `BigNumber.from` refuses. */
  datatype LogKind = Unrelated | BurnTransfer | Malformed

  function Classify(log: Log, depositAddress: string): (k: LogKind)
    ensures k != Unrelated <==> |log.topics| > 0 && log.topics[0] == TransferTopic
                                && (|log.topics| < 3 || TopicAddress(log.topics[2]) == Lower(depositAddress))
    ensures k == BurnTransfer <==> k != Unrelated && |log.topics| >= 3 && log.data.Some?
  {
    if |log.topics| == 0 || log.topics[0] != TransferTopic then Unrelated
    else if |log.topics| < 3 then Malformed
    else if TopicAddress(log.topics[2]) != Lower(depositAddress) then Unrelated
    else if log.data.None? then Malformed
    else BurnTransfer
  }

  /** The outcome of the scan: no transfer to the deposit address, the amount
      and sender of the first one, or the exception a malformed log raises. */
  datatype BurnScan = NoBurn | Burn(amount: nat, sender: string) | ScanFailed

  /** The burn evidence a log sequence holds, taken from the first log, in log order, that is not Unrelated. */
  function BurnEvidence(logs: seq<Log>, depositAddress: string): (r: BurnScan)
    ensures r.Burn? ==> |r.sender| >= 2 && r.sender[..2] == "0x" && Lower(r.sender) == r.sender
    ensures r != NoBurn ==> logs != []
  {
    if logs == [] then NoBurn
    else match Classify(logs[0], depositAddress)
      case BurnTransfer => Burn(logs[0].data.value, TopicAddress(logs[0].topics[1]))
      case Malformed => ScanFailed
      case Unrelated => BurnEvidence(logs[1..], depositAddress)
  }

  /** The `for ... of` scan over the receipt's logs, stopping at the first
      transfer to the deposit address. */
  method ScanBurnLogs(logs: seq<Log>, depositAddress: string) returns (scan: BurnScan)
    ensures scan == BurnEvidence(logs, depositAddress)
  {
    scan := NoBurn;
    var i := 0;
    while i < |logs|
      invariant 0 <= i <= |logs|
      invariant BurnEvidence(logs, depositAddress) == BurnEvidence(logs[i..], depositAddress)
      invariant scan == NoBurn
    {
      var log := logs[i];
      if |log.topics| > 0 && log.topics[0] == TransferTopic {
        if |log.topics| < 3 {
          return ScanFailed;
        }
        var toAddress := TopicAddress(log.topics[2]);
        if toAddress == Lower(depositAddress) {
          if log.data.None? {
            return ScanFailed;
          }
          scan := Burn(log.data.value, TopicAddress(log.topics[1]));
          break;
        }
      }
      assert logs[i..][1..] == logs[i + 1..];
      i := i + 1;
    }
  }

  /** The burn evidence comes from the first relevant log... */
  lemma {:induction false} BurnEvidenceAt(logs: seq<Log>, depositAddress: string, k: nat)
    requires k < |logs| && Classify(logs[k], depositAddress) == BurnTransfer
    requires forall j :: 0 <= j < k ==> Classify(logs[j], depositAddress) == Unrelated
    ensures BurnEvidence(logs, depositAddress) == Burn(logs[k].data.value, TopicAddress(logs[k].topics[1]))
  {
    if k > 0 {
      assert forall j :: 0 <= j < k - 1 ==> logs[1..][j] == logs[j + 1];
      BurnEvidenceAt(logs[1..], depositAddress, k - 1);
    }
  }

  /** ...a malformed transfer ahead of every matching one fails the scan... */
  lemma {:induction false} BurnEvidenceMalformedAt(logs: seq<Log>, depositAddress: string, k: nat)
    requires k < |logs| && Classify(logs[k], depositAddress) == Malformed
    requires forall j :: 0 <= j < k ==> Classify(logs[j], depositAddress) == Unrelated
    ensures BurnEvidence(logs, depositAddress) == ScanFailed
  {
    if k > 0 {
      assert forall j :: 0 <= j < k - 1 ==> logs[1..][j] == logs[j + 1];
      BurnEvidenceMalformedAt(logs[1..], depositAddress, k - 1);
    }
  }

  /** ...there is none exactly when every log is unrelated... */
  lemma {:induction false} BurnEvidenceNone(logs: seq<Log>, depositAddress: string)
    ensures BurnEvidence(logs, depositAddress) == NoBurn <==>
            forall j :: 0 <= j < |logs| ==> Classify(logs[j], depositAddress) == Unrelated
  {
    if logs != [] {
      BurnEvidenceNone(logs[1..], depositAddress);
      assert forall j :: 1 <= j < |logs| ==> logs[1..][j - 1] == logs[j];
    }
  }

  /** ...and logs after a found transfer do not change it. */
  lemma {:induction false} BurnEvidenceIgnoresLater(logs: seq<Log>, later: seq<Log>, depositAddress: string)
    requires BurnEvidence(logs, depositAddress) != NoBurn
    ensures BurnEvidence(logs + later, depositAddress) == BurnEvidence(logs, depositAddress)
  {
    var all := logs + later;
    assert all[0] == logs[0];
    if Classify(logs[0], depositAddress) == Unrelated {
      assert all[1..] == logs[1..] + later;
      BurnEvidenceIgnoresLater(logs[1..], later, depositAddress);
      assert BurnEvidence(all, depositAddress) == BurnEvidence(all[1..], depositAddress);
    }
  }

  /** A standard transfer log to the deposit address, with the indexed
      addresses written as topics, yields its amount and lower-cased sender. */
  lemma TransferToDepositIsBurn(from: string, depositAddress: string, amount: nat)
    requires |from| == 42 && from[..2] == "0x"
    requires |depositAddress| == 42 && depositAddress[..2] == "0x"
    ensures var log := Log([TransferTopic, AddressTopic(from), AddressTopic(depositAddress)], Some(amount));
            BurnEvidence([log], depositAddress) == Burn(amount, Lower(from))
  {
    TopicAddressOfAddressTopic(from);
    TopicAddressOfAddressTopic(depositAddress);
    var log := Log([TransferTopic, AddressTopic(from), AddressTopic(depositAddress)], Some(amount));
    assert Classify(log, depositAddress) == BurnTransfer;
    BurnEvidenceAt([log], depositAddress, 0);
  }

  /** `gasPrice.mul(110).div(100)`: the network price with a 10% markup,
      rounded down. */
  function AdjustGasPrice(p: nat): (r: nat)
    ensures p <= r
    ensures r * 100 <= p * 110 < r * 100 + 100
  {
    p * 110 / 100
  }
}
