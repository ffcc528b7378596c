/** The settlement handler: both swap directions as one sequential decision
    procedure over the replies of the foreign calls it makes, ending in one
    HTTP status and outcome, with the set of processed transaction ids as
    its only state. */
module Bridge {
  import opened Wrappers
  import opened Addresses
  import opened Decimal
  import opened Polygon
  import opened Flop

  const FlopToWflop: string := "FLOP_TO_WFLOP"
  const WflopToFlop: string := "WFLOP_TO_FLOP"

  /** The request; a field the body lacks is "" (every falsy value reads the same). */
  datatype Request = Request(
    httpMethod: string,
    transactionHash: string,
    signerAddress: string,
    targetAddress: string,
    swapOption: string,
    signature: string,
    signMessageText: string)

  /** Deployment configuration: the two deposit addresses and the address of
      the bridge wallet's signing key. */
  datatype Config = Config(flopDepositAddress: string, wflopDepositAddress: string, bridgeWalletAddress: string)

  /** What each foreign call returns when the handler makes it. The two ethers
      helpers are functions of their arguments (`recoverSigner(message,
      signature)` is `verifyMessage`, None where it throws); every other entry
      is the reply of the one call of that kind a request can make, with None
      where the call throws. `confirmations` is what the poller's successive
      attempts return before its deadline. */
  datatype Env = Env(
    recoverSigner: (string, string) -> Option<string>,
    isAddress: string -> bool,
    verifyMessage: VerifyReply,
    transaction: TxReply,
    transactionReceipt: Fetch,
    balance: Option<nat>,
    gasPrice: Option<nat>,
    gasEstimate: Option<nat>,
    mintTx: Option<string>,
    burnTx: Option<string>,
    confirmations: seq<Fetch>,
    unlock: UnlockReply,
    payout: SendReply)

  /** The calls the handler makes, in order, with the arguments that matter. */
  datatype Call =
    | RecoverSigner(message: string)
    | VerifyMessage(address: string, message: string)
    | LookupTxId(txid: string)
    | CheckPolygonAddress(address: string)
    | GetTransaction(txid: string)
    | GetReceipt(txHash: string)
    | BalanceOf(account: string)
    | GetGasPrice
    | EstimateBurnGas(amount: nat, gasPrice: nat)
    | MintTokens(to: string, amount: nat, gasPrice: nat)
    | BurnTokens(amount: nat, gasPrice: nat, gasLimit: nat)
    | AwaitReceipt(txHash: string)
    | UnlockWallet
    | SendToAddress(to: string, coinAmount: string)
    | RecordTxId(txid: string)

  /** The ownership checks that run before the duplicate check. */
  predicate IsSignatureCheck(c: Call)
  {
    c.RecoverSigner? || c.VerifyMessage?
  }

  /** Calls that read from or act on either chain. */
  predicate IsChainCall(c: Call)
  {
    c.GetTransaction? || c.GetReceipt? || c.BalanceOf? || c.GetGasPrice? || c.EstimateBurnGas?
    || c.MintTokens? || c.BurnTokens? || c.AwaitReceipt? || c.UnlockWallet? || c.SendToAddress?
  }

  /** Calls that change state on either chain. */
  predicate IsChainAction(c: Call)
  {
    c.MintTokens? || c.BurnTokens? || c.UnlockWallet? || c.SendToAddress?
  }

  /** The FLOP payouts among `calls`, in order. */
  function Payouts(calls: seq<Call>): seq<Call>
  {
    if calls == [] then []
    else (if calls[0].SendToAddress? then [calls[0]] else []) + Payouts(calls[1..])
  }

  /** The payouts are exactly the sends of the trace... */
  lemma {:induction false} PayoutsMembers(calls: seq<Call>)
    ensures forall c :: c in Payouts(calls) <==> c in calls && c.SendToAddress?
  {
    if calls != [] {
      PayoutsMembers(calls[1..]);
      assert forall c :: c in calls <==> c == calls[0] || c in calls[1..];
    }
  }

  /** ...a trace without sends has none... */
  lemma {:induction false} PayoutsNone(calls: seq<Call>)
    requires forall c | c in calls :: !c.SendToAddress?
    ensures Payouts(calls) == []
  {
    if calls != [] {
      assert forall c | c in calls[1..] :: c in calls;
      PayoutsNone(calls[1..]);
    }
  }

  /** ...a prefix without sends leaves the payouts of what follows... */
  lemma PayoutsAfterNone(a: seq<Call>, b: seq<Call>)
    requires forall c | c in a :: !c.SendToAddress?
    ensures Payouts(a + b) == Payouts(b)
  {
    PayoutsNone(a);
    PayoutsAppend(a, b);
    assert [] + Payouts(b) == Payouts(b);
  }

  /** ...calls that neither unlock nor send, before or after a trace, add no
      payout and no wallet step to it... */
  lemma QuietPrefix(quiet: seq<Call>, rest: seq<Call>)
    requires forall c | c in quiet :: !c.UnlockWallet? && !c.SendToAddress?
    ensures Payouts(quiet + rest) == Payouts(rest)
    ensures forall c | c in quiet + rest && (c.UnlockWallet? || c.SendToAddress?) :: c in rest
  {
    PayoutsAfterNone(quiet, rest);
  }

  lemma QuietSuffix(rest: seq<Call>, quiet: seq<Call>)
    requires forall c | c in quiet :: !c.UnlockWallet? && !c.SendToAddress?
    ensures Payouts(rest + quiet) == Payouts(rest)
    ensures forall c | c in rest + quiet && (c.UnlockWallet? || c.SendToAddress?) :: c in rest
  {
    PayoutsNone(quiet);
    PayoutsAppend(rest, quiet);
    assert Payouts(rest) + [] == Payouts(rest);
  }

  /** ...a single call is a payout exactly when it is a send... */
  lemma PayoutsOne(c: Call)
    ensures Payouts([c]) == if c.SendToAddress? then [c] else []
  {
    assert [c][1..] == [];
  }

  /** ...and the payouts of two traces in a row are those of each in turn. */
  lemma {:induction false} PayoutsAppend(a: seq<Call>, b: seq<Call>)
    ensures Payouts(a + b) == Payouts(a) + Payouts(b)
  {
    if a == [] {
      assert a + b == b;
    } else {
      assert (a + b)[0] == a[0];
      assert (a + b)[1..] == a[1..] + b;
      PayoutsAppend(a[1..], b);
    }
  }

  /** The chain actions among `calls` (mints, burns, unlocks and sends), in order. */
  function ChainActions(calls: seq<Call>): seq<Call>
  {
    if calls == [] then []
    else (if IsChainAction(calls[0]) then [calls[0]] else []) + ChainActions(calls[1..])
  }

  /** The chain actions of two traces in a row are those of each in turn... */
  lemma {:induction false} ChainActionsAppend(a: seq<Call>, b: seq<Call>)
    ensures ChainActions(a + b) == ChainActions(a) + ChainActions(b)
  {
    if a == [] {
      assert a + b == b;
    } else {
      var head := if IsChainAction(a[0]) then [a[0]] else [];
      assert (a + b)[0] == a[0];
      assert (a + b)[1..] == a[1..] + b;
      calc {
        ChainActions(a + b);
        head + ChainActions(a[1..] + b);
        { ChainActionsAppend(a[1..], b); }
        head + (ChainActions(a[1..]) + ChainActions(b));
        (head + ChainActions(a[1..])) + ChainActions(b);
      }
    }
  }

  /** ...a trace without chain actions has none... */
  lemma {:induction false} ChainActionsNone(calls: seq<Call>)
    requires forall c | c in calls :: !IsChainAction(c)
    ensures ChainActions(calls) == []
  {
    if calls != [] {
      assert forall c | c in calls[1..] :: c in calls;
      ChainActionsNone(calls[1..]);
    }
  }

  /** ...a single call is its own chain action or has none... */
  lemma ChainActionsOne(c: Call)
    ensures ChainActions([c]) == if IsChainAction(c) then [c] else []
  {
    assert [c][1..] == [];
  }

  /** ...and one more call adds itself exactly when it is a chain action. */
  lemma ChainActionsPush(calls: seq<Call>, c: Call)
    ensures ChainActions(calls + [c]) == ChainActions(calls) + if IsChainAction(c) then [c] else []
  {
    ChainActionsAppend(calls, [c]);
    assert [c][1..] == [];
  }

  /** A call that is no chain action, before or after a trace, leaves its
      chain actions as they are... */
  lemma QuietCall(c: Call, rest: seq<Call>)
    requires !IsChainAction(c)
    ensures ChainActions([c] + rest) == ChainActions(rest)
    ensures ChainActions(rest + [c]) == ChainActions(rest)
  {
    assert ([c] + rest)[0] == c && ([c] + rest)[1..] == rest;
    ChainActionsPush(rest, c);
  }

  /** ...and so do calls without chain actions, leave its chain actions as they are. */
  lemma QuietActions(quiet: seq<Call>, rest: seq<Call>)
    requires forall c | c in quiet :: !IsChainAction(c)
    ensures ChainActions(quiet + rest) == ChainActions(rest)
    ensures ChainActions(rest + quiet) == ChainActions(rest)
  {
    ChainActionsNone(quiet);
    ChainActionsAppend(quiet, rest);
    ChainActionsAppend(rest, quiet);
    assert [] + ChainActions(rest) == ChainActions(rest);
    assert ChainActions(rest) + [] == ChainActions(rest);
  }

  /** Why a request was turned down. */
  datatype Rejection =
    | MethodNotAllowed
    | MissingParameters
    | InvalidSignature
    | SignatureNotVerified
    | SignatureRpcFailed
    | AlreadyProcessed
    | InvalidPolygonAddress
    | TransactionNotFound
    | UnexpectedDetails
    | WrongDepositAddress
    | InvalidFlopAddress
    | ReceiptUnavailable
    | NoBurnTransfer
    | SignerMismatch
    | BridgeWalletMismatch
    | InsufficientBalance
    | WalletUnlockFailed
    | WalletUnreachable
    | PayoutUnreadable
    | PayoutFailed
    | InvalidSwapOption
    | UnexpectedError

  datatype Outcome =
    | Rejected(kind: Rejection)
    | Minted(polygonTxHash: string, mintedAmount: nat, receipt: Receipt)
    | MintUnconfirmed(polygonTxHash: string, mintedAmount: nat)
    | Released(flopTxHash: Option<string>, burnTxHash: string, burnAmount: nat, burnReceipt: Receipt)
    | BurnUnconfirmed(polygonTxHash: string, burnTxHash: string, burnAmount: nat)

  datatype Response = Response(status: nat, outcome: Outcome)

  /** The two full-success outcomes, after which the transaction id is recorded. */
  predicate IsSettled(o: Outcome)
  {
    o.Minted? || o.Released?
  }

  /** The HTTP status of each outcome. */
  function StatusOf(o: Outcome): (status: nat)
    ensures status == 200 <==> !o.Rejected?
    ensures status in {200, 400, 405, 500}
  {
    if !o.Rejected? then 200
    else match o.kind
      case MethodNotAllowed => 405
      case SignatureRpcFailed => 500
      case WalletUnlockFailed => 500
      case WalletUnreachable => 500
      case PayoutUnreadable => 500
      case PayoutFailed => 500
      case UnexpectedError => 500
      case _ => 400
  }

  function Reject(kind: Rejection): Response
  {
    Response(StatusOf(Rejected(kind)), Rejected(kind))
  }

  predicate HasMissingParameter(req: Request)
  {
    req.transactionHash == "" || req.signerAddress == "" || req.targetAddress == "" || req.swapOption == ""
  }

  /** The ownership check that precedes the duplicate check passes. */
  predicate SignaturePrecheckPasses(req: Request, env: Env)
  {
    if req.swapOption == WflopToFlop then env.recoverSigner(req.signMessageText, req.signature).Some?
    else if req.swapOption == FlopToWflop then env.verifyMessage == VerifyResult(true)
    else true
  }

  /** What the FLOP transaction shows: the 8-decimal amount of its first
      output paying the deposit address, or why it is refused. */
  datatype DepositCheck = Deposit(units: nat) | NoDeposit(kind: Rejection)

  function CheckDeposit(reply: TxReply, depositAddress: string): (r: DepositCheck)
    ensures r.Deposit? <==> reply.TxResult? && reply.result.Some? && reply.result.value.details.Some?
                            && FindDeposit(reply.result.value.details.value, depositAddress).Some?
    ensures r.Deposit? ==>
              r.units > 0
              && r.units == reply.result.value.details.value[FindDeposit(reply.result.value.details.value, depositAddress).value].amount
    ensures reply.TxRpcFailed? ==> r == NoDeposit(UnexpectedError)
    ensures reply == TxResult(None) ==> r == NoDeposit(TransactionNotFound)
    ensures reply == TxResult(Some(TxDetails(None))) ==> r == NoDeposit(UnexpectedDetails)
    ensures r.NoDeposit? && reply.TxResult? && reply.result.Some? && reply.result.value.details.Some? ==>
              r == NoDeposit(WrongDepositAddress)
  {
    match reply
    case TxRpcFailed => NoDeposit(UnexpectedError)
    case TxResult(None) => NoDeposit(TransactionNotFound)
    case TxResult(Some(TxDetails(None))) => NoDeposit(UnexpectedDetails)
    case TxResult(Some(TxDetails(Some(outputs)))) =>
      match FindDeposit(outputs, depositAddress)
      case None => NoDeposit(WrongDepositAddress)
      case Some(k) => Deposit(outputs[k].amount as nat)
  }

  /** The amount the handler may burn: present when the target is a FLOP
      address, the receipt exists, the proof's signer is recovered from the
      transaction hash and equals the burn sender, the bridge wallet is the
      deposit address, and the deposit address holds enough tokens. */
  function AuthorizedBurn(req: Request, env: Env, config: Config): (r: Option<nat>)
    ensures r.Some? ==> IsFlopAddress(req.targetAddress) && env.transactionReceipt.FetchReceipt?
    ensures r.Some? ==>
              var evidence := BurnEvidence(env.transactionReceipt.receipt.logs, config.wflopDepositAddress);
              evidence.Burn? && evidence.amount == r.value
              && env.recoverSigner(req.transactionHash, req.signature).Some?
              && Lower(env.recoverSigner(req.transactionHash, req.signature).value) == evidence.sender
    ensures r.Some? ==> SameAddress(config.bridgeWalletAddress, config.wflopDepositAddress)
    ensures r.Some? ==> env.balance.Some? && r.value <= env.balance.value
  {
    if !IsFlopAddress(req.targetAddress) || !env.transactionReceipt.FetchReceipt? then None
    else
      var signer := env.recoverSigner(req.transactionHash, req.signature);
      var evidence := BurnEvidence(env.transactionReceipt.receipt.logs, config.wflopDepositAddress);
      if signer.Some? && evidence.Burn? && SameAddress(signer.value, evidence.sender)
         && SameAddress(config.bridgeWalletAddress, config.wflopDepositAddress)
         && env.balance.Some? && env.balance.value >= evidence.amount
      then Some(evidence.amount)
      else None
  }

  /** Gas limit for the burn: the estimate, or the fallback where estimation throws. */
  function BurnGasLimit(estimate: Option<nat>): nat
  {
    if estimate.Some? then estimate.value else FallbackGasLimit
  }

  /** Why FLOP -> WFLOP refuses a request: an address that is not a Polygon
      address, the deposit check's refusal, or (past both) a failing gas
      price or mint call. */
  function MintRefusal(req: Request, env: Env, config: Config): Rejection
  {
    var deposit := CheckDeposit(env.transaction, config.flopDepositAddress);
    if !env.isAddress(req.targetAddress) then InvalidPolygonAddress
    else if deposit.NoDeposit? then deposit.kind
    else UnexpectedError
  }

  /** Why the checks before the burn refuse a request, in the order they run:
      the FLOP address, the receipt fetch (throwing or null), the signature,
      the log scan, the signer, the bridge wallet and the balance (throwing or
      short). */
  function BurnRefusal(req: Request, env: Env, config: Config): Rejection
  {
    if !IsFlopAddress(req.targetAddress) then InvalidFlopAddress
    else match env.transactionReceipt
      case FetchError => UnexpectedError
      case FetchNull => ReceiptUnavailable
      case FetchReceipt(receipt) =>
        var signer := env.recoverSigner(req.transactionHash, req.signature);
        if signer.None? then InvalidSignature
        else match BurnEvidence(receipt.logs, config.wflopDepositAddress)
          case ScanFailed => UnexpectedError
          case NoBurn => NoBurnTransfer
          case Burn(_, sender) =>
            if !SameAddress(signer.value, sender) then SignerMismatch
            else if !SameAddress(config.bridgeWalletAddress, config.wflopDepositAddress) then BridgeWalletMismatch
            else if env.balance.None? then UnexpectedError
            else InsufficientBalance
  }

  /** Why the FLOP payout fails: the unlock request throws, the unlock fails
      with a code other than -15, the send request throws, its body does not
      parse, its body is `null` (which throws once the status is ok), or the
      node refuses it. */
  function ReleaseRefusal(env: Env): Rejection
  {
    if env.unlock.UnlockUnreachable? then WalletUnreachable
    else if !UnlockPasses(env.unlock) then WalletUnlockFailed
    else
      match env.payout
      case SendUnreachable => UnexpectedError
      case SendUnreadable => PayoutUnreadable
      case SendNull(httpOk) => if httpOk then UnexpectedError else PayoutFailed
      case SendResponse(_, _) => PayoutFailed
  }

  /** Why WFLOP -> FLOP refuses a request: the checks before the burn, a
      failing gas price or burn call, or the payout. */
  function WflopRefusal(req: Request, env: Env, config: Config): Rejection
  {
    if AuthorizedBurn(req, env, config).None? then BurnRefusal(req, env, config)
    else if env.gasPrice.None? || env.burnTx.None? then UnexpectedError
    else ReleaseRefusal(env)
  }

  /** Why the handler refuses a new, well-formed request: per swap option. */
  function SettleRefusal(req: Request, env: Env, config: Config): Rejection
  {
    if req.swapOption == FlopToWflop then MintRefusal(req, env, config)
    else if req.swapOption == WflopToFlop then WflopRefusal(req, env, config)
    else InvalidSwapOption
  }

  /** Mint the tokens for a deposit of `units` FLOP minor units to `to` at the
      marked-up gas price and wait for the receipt. */
  method MintDeposit(to: string, units: nat, env: Env) returns (outcome: Outcome, calls: seq<Call>)
    ensures outcome.Rejected? <==> env.gasPrice.None? || env.mintTx.None?
    ensures outcome.Rejected? ==> outcome.kind == UnexpectedError
    ensures forall c | c in calls :: c.GetGasPrice? || c.AwaitReceipt?
              || (env.gasPrice.Some? && c == MintTokens(to, units * WflopScale, AdjustGasPrice(env.gasPrice.value)))
    ensures !outcome.Rejected? ==>
              (outcome.Minted? || outcome.MintUnconfirmed?)
              && outcome.mintedAmount == units * WflopScale
              && env.gasPrice.Some? && env.mintTx == Some(outcome.polygonTxHash)
              && calls == [GetGasPrice, MintTokens(to, outcome.mintedAmount, AdjustGasPrice(env.gasPrice.value)),
                           AwaitReceipt(outcome.polygonTxHash)]
    ensures outcome.Minted? ==> FirstConfirmed(env.confirmations) == Some(outcome.receipt)
    ensures outcome.MintUnconfirmed? ==> FirstConfirmed(env.confirmations).None?
    ensures calls == MintTrace(to, units, env)
  {
    var amount := WflopAmount(units);
    calls := [GetGasPrice];
    if env.gasPrice.None? {
      return Rejected(UnexpectedError), calls;
    }
    var adjustedGasPrice := AdjustGasPrice(env.gasPrice.value);
    calls := calls + [MintTokens(to, amount, adjustedGasPrice)];
    if env.mintTx.None? {
      return Rejected(UnexpectedError), calls;
    }
    var txHash := env.mintTx.value;
    calls := calls + [AwaitReceipt(txHash)];
    var receipt := PollTransactionReceipt(env.confirmations);
    if receipt.None? {
      return MintUnconfirmed(txHash, amount), calls;
    }
    return Minted(txHash, amount, receipt.value), calls;
  }

  /** The calls of a mint of `units` FLOP minor units to `to`: the gas price
      read, then, once a price is read, the mint at the marked-up price, then,
      once the mint has a hash, the wait for its receipt. */
  function MintTrace(to: string, units: nat, env: Env): seq<Call>
  {
    [GetGasPrice] + if env.gasPrice.None? then []
    else [MintTokens(to, units * WflopScale, AdjustGasPrice(env.gasPrice.value))]
         + if env.mintTx.Some? then [AwaitReceipt(env.mintTx.value)] else []
  }

  /** The chain actions of FLOP -> WFLOP's calls once the address check passed
      are the deposit's mint alone. */
  lemma DepositTraceActions(req: Request, env: Env, config: Config, minting: seq<Call>)
    requires CheckDeposit(env.transaction, config.flopDepositAddress).NoDeposit? ==>
               minting == [GetTransaction(req.transactionHash)]
    requires CheckDeposit(env.transaction, config.flopDepositAddress).Deposit? ==>
               minting == [GetTransaction(req.transactionHash)]
                          + MintTrace(req.targetAddress, CheckDeposit(env.transaction, config.flopDepositAddress).units, env)
    ensures ChainActions([CheckPolygonAddress(req.targetAddress)] + minting) == DepositMint(req, env, config)
  {
    var checked := CheckPolygonAddress(req.targetAddress);
    var fetched := GetTransaction(req.transactionHash);
    assert [checked] + minting == [checked, fetched] + minting[1..];
    ChainActionsAppend([checked, fetched], minting[1..]);
    ChainActionsAppend([checked], [fetched]);
    assert [checked, fetched] == [checked] + [fetched];
    ChainActionsOne(checked);
    ChainActionsOne(fetched);
    if CheckDeposit(env.transaction, config.flopDepositAddress).Deposit? {
      MintTraceActions(req.targetAddress, CheckDeposit(env.transaction, config.flopDepositAddress).units, env);
    } else {
      assert minting[1..] == [];
    }
  }

  /** The one chain action of a mint's trace is the mint, once a gas price is
      read. */
  lemma MintTraceActions(to: string, units: nat, env: Env)
    ensures ChainActions(MintTrace(to, units, env)) ==
              if env.gasPrice.Some? then [MintTokens(to, units * WflopScale, AdjustGasPrice(env.gasPrice.value))] else []
  {
    var minting := MintTrace(to, units, env);
    ChainActionsAppend([GetGasPrice], minting[1..]);
    assert minting == [GetGasPrice] + minting[1..];
    ChainActionsOne(GetGasPrice);
    if env.gasPrice.Some? {
      var mint := MintTokens(to, units * WflopScale, AdjustGasPrice(env.gasPrice.value));
      var waited := if env.mintTx.Some? then [AwaitReceipt(env.mintTx.value)] else [];
      assert minting[1..] == [mint] + waited;
      ChainActionsAppend([mint], waited);
      ChainActionsOne(mint);
      if env.mintTx.Some? {
        ChainActionsOne(AwaitReceipt(env.mintTx.value));
      }
    }
  }

  /** FLOP -> WFLOP past the address check: find the deposit in the FLOP
      transaction, mint the converted amount and wait for the receipt. */
  method MintFromTransaction(req: Request, env: Env, config: Config) returns (outcome: Outcome, calls: seq<Call>)
    ensures outcome.Rejected? || outcome.Minted? || outcome.MintUnconfirmed?
    ensures forall c | c in calls ::
              !c.LookupTxId? && !c.RecordTxId? && !c.BurnTokens? && !c.CheckPolygonAddress? && !c.UnlockWallet? && !c.SendToAddress?
    ensures CheckDeposit(env.transaction, config.flopDepositAddress).NoDeposit? ==>
              outcome == Rejected(CheckDeposit(env.transaction, config.flopDepositAddress).kind)
              && calls == [GetTransaction(req.transactionHash)]
    ensures CheckDeposit(env.transaction, config.flopDepositAddress).Deposit? && outcome.Rejected? ==>
              outcome.kind == UnexpectedError
    ensures forall c | c in calls && c.MintTokens? ::
              c.to == req.targetAddress && env.gasPrice.Some? && c.gasPrice == AdjustGasPrice(env.gasPrice.value)
              && CheckDeposit(env.transaction, config.flopDepositAddress).Deposit?
              && c.amount == CheckDeposit(env.transaction, config.flopDepositAddress).units * WflopScale
    ensures CheckDeposit(env.transaction, config.flopDepositAddress).Deposit? && env.gasPrice.Some? && env.mintTx.Some? ==>
              outcome.Minted? || outcome.MintUnconfirmed?
    ensures outcome.Minted? || outcome.MintUnconfirmed? ==>
              CheckDeposit(env.transaction, config.flopDepositAddress).Deposit?
              && outcome.mintedAmount == CheckDeposit(env.transaction, config.flopDepositAddress).units * WflopScale
              && env.gasPrice.Some? && env.mintTx == Some(outcome.polygonTxHash)
              && calls == [GetTransaction(req.transactionHash), GetGasPrice,
                           MintTokens(req.targetAddress, outcome.mintedAmount, AdjustGasPrice(env.gasPrice.value)),
                           AwaitReceipt(outcome.polygonTxHash)]
    ensures outcome.Minted? ==> FirstConfirmed(env.confirmations) == Some(outcome.receipt)
    ensures outcome.MintUnconfirmed? ==> FirstConfirmed(env.confirmations).None?
    ensures CheckDeposit(env.transaction, config.flopDepositAddress).Deposit? ==>
              calls == [GetTransaction(req.transactionHash)]
                       + MintTrace(req.targetAddress, CheckDeposit(env.transaction, config.flopDepositAddress).units, env)
  {
    var fetched := [GetTransaction(req.transactionHash)];
    var deposit := CheckDeposit(env.transaction, config.flopDepositAddress);
    if deposit.NoDeposit? {
      return Rejected(deposit.kind), fetched;
    }
    var minting;
    outcome, minting := MintDeposit(req.targetAddress, deposit.units, env);
    calls := fetched + minting;
    assert forall c | c in calls :: c in fetched || c in minting;
  }

  /** FLOP -> WFLOP: check the Polygon address, find the deposit in the FLOP
      transaction, mint the converted amount and wait for the receipt. */
  method SwapFlopToWflop(req: Request, env: Env, config: Config) returns (outcome: Outcome, calls: seq<Call>)
    ensures outcome.Rejected? || outcome.Minted? || outcome.MintUnconfirmed?
    ensures forall c | c in calls :: !c.LookupTxId? && !c.RecordTxId? && !c.BurnTokens? && !c.UnlockWallet? && !c.SendToAddress?
    ensures !env.isAddress(req.targetAddress) ==>
              outcome == Rejected(InvalidPolygonAddress) && calls == [CheckPolygonAddress(req.targetAddress)]
    ensures env.isAddress(req.targetAddress) && CheckDeposit(env.transaction, config.flopDepositAddress).NoDeposit? ==>
              outcome == Rejected(CheckDeposit(env.transaction, config.flopDepositAddress).kind)
              && calls == [CheckPolygonAddress(req.targetAddress), GetTransaction(req.transactionHash)]
    ensures forall c | c in calls && c.MintTokens? ::
              c.to == req.targetAddress && env.gasPrice.Some? && c.gasPrice == AdjustGasPrice(env.gasPrice.value)
              && CheckDeposit(env.transaction, config.flopDepositAddress).Deposit?
              && c.amount == CheckDeposit(env.transaction, config.flopDepositAddress).units * WflopScale
    ensures env.isAddress(req.targetAddress) && CheckDeposit(env.transaction, config.flopDepositAddress).Deposit?
            && env.gasPrice.Some? && env.mintTx.Some? ==>
              outcome.Minted? || outcome.MintUnconfirmed?
    ensures outcome.Minted? || outcome.MintUnconfirmed? ==>
              CheckDeposit(env.transaction, config.flopDepositAddress).Deposit?
              && outcome.mintedAmount == CheckDeposit(env.transaction, config.flopDepositAddress).units * WflopScale
              && env.gasPrice.Some? && env.mintTx == Some(outcome.polygonTxHash)
              && calls == [CheckPolygonAddress(req.targetAddress), GetTransaction(req.transactionHash), GetGasPrice,
                           MintTokens(req.targetAddress, outcome.mintedAmount, AdjustGasPrice(env.gasPrice.value)),
                           AwaitReceipt(outcome.polygonTxHash)]
    ensures outcome.Minted? ==> FirstConfirmed(env.confirmations) == Some(outcome.receipt)
    ensures outcome.MintUnconfirmed? ==> FirstConfirmed(env.confirmations).None?
    ensures outcome.Rejected? ==> outcome.kind == MintRefusal(req, env, config)
    ensures ChainActions(calls) == EarnedMint(req, env, config)
  {
    var checked := [CheckPolygonAddress(req.targetAddress)];
    if !env.isAddress(req.targetAddress) {
      assert ChainActions(checked) == [] by { ChainActionsOne(CheckPolygonAddress(req.targetAddress)); }
      return Rejected(InvalidPolygonAddress), checked;
    }
    var minting;
    outcome, minting := MintFromTransaction(req, env, config);
    calls := checked + minting;
    assert ChainActions(calls) == DepositMint(req, env, config) by {
      DepositTraceActions(req, env, config, minting);
    }
  }

  /** What the Polygon side shows for a burn request: the amount to burn, or
      why it is refused. */
  datatype BurnCheck = BurnAuthorized(amount: nat) | BurnRefused(kind: Rejection)

  /** The checks of WFLOP -> FLOP that precede the burn: the FLOP address, the
      burn transfer in the Polygon receipt, the signer, the bridge wallet and
      its balance. */
  method VerifyBurn(req: Request, env: Env, config: Config) returns (check: BurnCheck, calls: seq<Call>)
    ensures check.BurnAuthorized? <==> AuthorizedBurn(req, env, config).Some?
    ensures check.BurnAuthorized? ==> AuthorizedBurn(req, env, config) == Some(check.amount)
    ensures check.BurnRefused? ==> check.kind == BurnRefusal(req, env, config)
    ensures forall c | c in calls :: c.GetReceipt? || c.RecoverSigner? || c.BalanceOf?
    ensures !IsFlopAddress(req.targetAddress) ==> check == BurnRefused(InvalidFlopAddress) && calls == []
    ensures IsFlopAddress(req.targetAddress) ==> |calls| > 0 && calls[0] == GetReceipt(req.transactionHash)
    ensures IsFlopAddress(req.targetAddress) && env.transactionReceipt.FetchNull? ==> check == BurnRefused(ReceiptUnavailable)
    ensures IsFlopAddress(req.targetAddress) && env.transactionReceipt.FetchReceipt?
            && env.recoverSigner(req.transactionHash, req.signature).Some?
            && BurnEvidence(env.transactionReceipt.receipt.logs, config.wflopDepositAddress) == NoBurn ==>
              check == BurnRefused(NoBurnTransfer)
    ensures IsFlopAddress(req.targetAddress) && env.transactionReceipt.FetchReceipt?
            && env.recoverSigner(req.transactionHash, req.signature).Some?
            && BurnEvidence(env.transactionReceipt.receipt.logs, config.wflopDepositAddress).Burn?
            && !SameAddress(env.recoverSigner(req.transactionHash, req.signature).value,
                            BurnEvidence(env.transactionReceipt.receipt.logs, config.wflopDepositAddress).sender) ==>
              check == BurnRefused(SignerMismatch)
    ensures IsFlopAddress(req.targetAddress) && env.transactionReceipt.FetchError? ==> check == BurnRefused(UnexpectedError)
    ensures IsFlopAddress(req.targetAddress) && env.transactionReceipt.FetchReceipt?
            && env.recoverSigner(req.transactionHash, req.signature).None? ==>
              check == BurnRefused(InvalidSignature)
    ensures IsFlopAddress(req.targetAddress) && env.transactionReceipt.FetchReceipt?
            && env.recoverSigner(req.transactionHash, req.signature).Some?
            && BurnEvidence(env.transactionReceipt.receipt.logs, config.wflopDepositAddress) == ScanFailed ==>
              check == BurnRefused(UnexpectedError)
    ensures IsFlopAddress(req.targetAddress) && env.transactionReceipt.FetchReceipt?
            && env.recoverSigner(req.transactionHash, req.signature).Some?
            && BurnEvidence(env.transactionReceipt.receipt.logs, config.wflopDepositAddress).Burn?
            && SameAddress(env.recoverSigner(req.transactionHash, req.signature).value,
                           BurnEvidence(env.transactionReceipt.receipt.logs, config.wflopDepositAddress).sender) ==>
              (!SameAddress(config.bridgeWalletAddress, config.wflopDepositAddress) ==> check == BurnRefused(BridgeWalletMismatch))
              && (SameAddress(config.bridgeWalletAddress, config.wflopDepositAddress) && env.balance.None? ==>
                    check == BurnRefused(UnexpectedError))
              && (SameAddress(config.bridgeWalletAddress, config.wflopDepositAddress) && env.balance.Some?
                  && env.balance.value < BurnEvidence(env.transactionReceipt.receipt.logs, config.wflopDepositAddress).amount ==>
                    check == BurnRefused(InsufficientBalance))
  {
    calls := [];
    if !IsFlopAddress(req.targetAddress) {
      return BurnRefused(InvalidFlopAddress), calls;
    }
    calls := [GetReceipt(req.transactionHash)];
    var txReceipt: Receipt;
    match env.transactionReceipt {
      case FetchError => return BurnRefused(UnexpectedError), calls;
      case FetchNull => return BurnRefused(ReceiptUnavailable), calls;
      case FetchReceipt(r) => txReceipt := r;
    }
    calls := calls + [RecoverSigner(req.transactionHash)];
    var recoveredSigner := env.recoverSigner(req.transactionHash, req.signature);
    if recoveredSigner.None? {
      return BurnRefused(InvalidSignature), calls;
    }
    var scan := ScanBurnLogs(txReceipt.logs, config.wflopDepositAddress);
    if scan.ScanFailed? {
      return BurnRefused(UnexpectedError), calls;
    }
    if scan.NoBurn? {
      return BurnRefused(NoBurnTransfer), calls;
    }
    var burnAmount, burnSender := scan.amount, scan.sender;
    if Lower(recoveredSigner.value) != Lower(burnSender) {
      return BurnRefused(SignerMismatch), calls;
    }
    if Lower(config.bridgeWalletAddress) != Lower(config.wflopDepositAddress) {
      return BurnRefused(BridgeWalletMismatch), calls;
    }
    calls := calls + [BalanceOf(config.wflopDepositAddress)];
    if env.balance.None? {
      return BurnRefused(UnexpectedError), calls;
    }
    if env.balance.value < burnAmount {
      return BurnRefused(InsufficientBalance), calls;
    }
    return BurnAuthorized(burnAmount), calls;
  }

  /** Burn `amount` at the marked-up gas price with the estimated (or
      fallback) gas limit and wait for the receipt: the burn's hash (None where
      the gas price or the burn call throws) and the first confirmed receipt. */
  method BurnAndConfirm(amount: nat, env: Env) returns (txHash: Option<string>, receipt: Option<Receipt>, calls: seq<Call>)
    ensures txHash == if env.gasPrice.Some? then env.burnTx else None
    ensures receipt == if txHash.Some? then FirstConfirmed(env.confirmations) else None
    ensures calls == if env.gasPrice.None? then [GetGasPrice]
                     else [GetGasPrice, EstimateBurnGas(amount, AdjustGasPrice(env.gasPrice.value)),
                           BurnTokens(amount, AdjustGasPrice(env.gasPrice.value), BurnGasLimit(env.gasEstimate))]
                          + if txHash.Some? then [AwaitReceipt(txHash.value)] else []
    ensures forall c | c in calls :: c.GetGasPrice? || c.EstimateBurnGas? || c.AwaitReceipt?
              || (env.gasPrice.Some? && c == BurnTokens(amount, AdjustGasPrice(env.gasPrice.value), BurnGasLimit(env.gasEstimate)))
    ensures ChainActions(calls) ==
              if env.gasPrice.None? then []
              else [BurnTokens(amount, AdjustGasPrice(env.gasPrice.value), BurnGasLimit(env.gasEstimate))]
  {
    calls := [GetGasPrice];
    assert ChainActions(calls) == [] by { ChainActionsOne(GetGasPrice); }
    if env.gasPrice.None? {
      return None, None, calls;
    }
    var adjustedGasPrice := AdjustGasPrice(env.gasPrice.value);
    assert ChainActions(calls + [EstimateBurnGas(amount, adjustedGasPrice)]) == [] by {
      ChainActionsPush(calls, EstimateBurnGas(amount, adjustedGasPrice));
    }
    calls := calls + [EstimateBurnGas(amount, adjustedGasPrice)];
    var gasLimit: nat;
    match env.gasEstimate {
      case Some(estimate) => gasLimit := estimate;
      case None => gasLimit := FallbackGasLimit;
    }
    var burn := BurnTokens(amount, adjustedGasPrice, gasLimit);
    assert ChainActions(calls + [burn]) == [burn] by { ChainActionsPush(calls, burn); }
    calls := calls + [burn];
    if env.burnTx.None? {
      return None, None, calls;
    }
    txHash := env.burnTx;
    assert ChainActions(calls + [AwaitReceipt(txHash.value)]) == [burn] by { ChainActionsPush(calls, AwaitReceipt(txHash.value)); }
    calls := calls + [AwaitReceipt(txHash.value)];
    receipt := PollTransactionReceipt(env.confirmations);
  }

  /** The unlock succeeds, or fails only because the wallet is not encrypted. */
  predicate UnlockPasses(reply: UnlockReply)
  {
    reply.UnlockOk? || reply == UnlockError(Some(WalletUnencrypted))
  }

  /** The FLOP node answered the payout with HTTP success and no error body. */
  function PayoutAccepted(reply: SendReply): (accepted: bool)
    ensures accepted ==> reply.SendResponse? && reply.httpOk
    ensures reply.SendResponse? && reply.body.None? ==> (accepted <==> reply.httpOk)
    ensures reply.SendResponse? && reply.body.Some? && reply.body.value.hasError ==> !accepted
  {
    reply.SendResponse? && reply.httpOk && !(reply.body.Some? && reply.body.value.hasError)
  }

  /** Unlock the FLOP wallet and send the coins for `burnAmount` WFLOP minor
      units, truncated to 8 decimals: None on success with the node's
      transaction id, or why the payout failed. */
  method ReleaseCoins(target: string, burnAmount: nat, env: Env) returns (failure: Option<Rejection>, flopTxHash: Option<string>, calls: seq<Call>)
    ensures calls == [UnlockWallet] + if UnlockPasses(env.unlock) then [SendToAddress(target, ToFixed(CoinUnits(burnAmount)))] else []
    ensures forall c | c in calls :: c == UnlockWallet || c == SendToAddress(target, ToFixed(CoinUnits(burnAmount)))
    ensures failure.None? <==> UnlockPasses(env.unlock) && PayoutAccepted(env.payout)
    ensures failure.Some? ==> failure.value == ReleaseRefusal(env)
    ensures env.unlock.UnlockUnreachable? ==> failure == Some(WalletUnreachable)
    ensures env.unlock.UnlockError? && !UnlockPasses(env.unlock) ==> failure == Some(WalletUnlockFailed)
    ensures UnlockPasses(env.unlock) && env.payout.SendUnreadable? ==> failure == Some(PayoutUnreadable)
    ensures UnlockPasses(env.unlock) && env.payout.SendUnreachable? ==> failure == Some(UnexpectedError)
    ensures UnlockPasses(env.unlock) && env.payout.SendResponse? && !PayoutAccepted(env.payout) ==> failure == Some(PayoutFailed)
    ensures UnlockPasses(env.unlock) && env.payout.SendNull? ==>
              failure == Some(if env.payout.httpOk then UnexpectedError else PayoutFailed)
    ensures failure.Some? ==> failure.value in {WalletUnreachable, WalletUnlockFailed, UnexpectedError, PayoutUnreadable, PayoutFailed}
    ensures failure.None? ==> flopTxHash == if env.payout.body.Some? then env.payout.body.value.result else None
  {
    calls := [UnlockWallet];
    match env.unlock {
      case UnlockUnreachable => return Some(WalletUnreachable), None, calls;
      case UnlockError(code) =>
        if code != Some(WalletUnencrypted) {
          return Some(WalletUnlockFailed), None, calls;
        }
      case UnlockOk =>
    }
    var coinAmount := ToFixed(CoinUnits(burnAmount));
    calls := calls + [SendToAddress(target, coinAmount)];
    match env.payout {
      case SendUnreachable => return Some(UnexpectedError), None, calls;
      case SendUnreadable => return Some(PayoutUnreadable), None, calls;
      case SendNull(httpOk) =>
        // reading `error` of a null body throws once the status is ok
        if !httpOk {
          return Some(PayoutFailed), None, calls;
        }
        return Some(UnexpectedError), None, calls;
      case SendResponse(httpOk, body) =>
        if !httpOk || (body.Some? && body.value.hasError) {
          return Some(PayoutFailed), None, calls;
        }
        flopTxHash := if body.Some? then body.value.result else None;
        return None, flopTxHash, calls;
    }
  }

  /** The end of WFLOP -> FLOP once the burn is confirmed: release the coins
      and report the burn together with the payout's transaction id. */
  method ReleaseBurned(target: string, amount: nat, burnTxHash: string, burnReceipt: Receipt, env: Env)
    returns (outcome: Outcome, calls: seq<Call>)
    ensures outcome.Rejected? || outcome.Released?
    ensures calls == [UnlockWallet] + if UnlockPasses(env.unlock) then [SendToAddress(target, ToFixed(CoinUnits(amount)))] else []
    ensures UnlockWallet in calls && forall c | c in calls :: c.UnlockWallet? || c.SendToAddress?
    ensures forall c | c in calls && c.SendToAddress? ::
              UnlockPasses(env.unlock) && c == SendToAddress(target, ToFixed(CoinUnits(amount)))
    ensures Payouts(calls) == if UnlockPasses(env.unlock) then [SendToAddress(target, ToFixed(CoinUnits(amount)))] else []
    ensures ChainActions(calls) == calls
    ensures outcome.Rejected? ==> outcome.kind == ReleaseRefusal(env)
    ensures !UnlockPasses(env.unlock) ==>
              outcome == Rejected(if env.unlock.UnlockUnreachable? then WalletUnreachable else WalletUnlockFailed)
    ensures outcome.Released? <==> UnlockPasses(env.unlock) && PayoutAccepted(env.payout)
    ensures outcome.Released? ==>
              outcome == Released(if env.payout.body.Some? then env.payout.body.value.result else None,
                                  burnTxHash, amount, burnReceipt)
  {
    var failure, flopTxHash, releasing := ReleaseCoins(target, amount, env);
    calls := releasing;
    var sent := if UnlockPasses(env.unlock) then [SendToAddress(target, ToFixed(CoinUnits(amount)))] else [];
    PayoutsOne(UnlockWallet);
    PayoutsAppend([UnlockWallet], sent);
    if UnlockPasses(env.unlock) {
      PayoutsOne(SendToAddress(target, ToFixed(CoinUnits(amount))));
    }
    assert ChainActions(calls) == calls by {
      ChainActionsOne(UnlockWallet);
      ChainActionsAppend([UnlockWallet], sent);
      if UnlockPasses(env.unlock) {
        ChainActionsOne(SendToAddress(target, ToFixed(CoinUnits(amount))));
      }
    }
    if failure.Some? {
      return Rejected(failure.value), calls;
    }
    return Released(flopTxHash, burnTxHash, amount, burnReceipt), calls;
  }

  /** The WFLOP -> FLOP flow after the checks: burn the authorised `amount`,
      wait for the burn, then unlock the FLOP wallet and send the coins. */
  method BurnAndRelease(req: Request, amount: nat, env: Env) returns (outcome: Outcome, calls: seq<Call>)
    ensures outcome.Rejected? || outcome.Released? || outcome.BurnUnconfirmed?
    ensures forall c | c in calls :: IsChainCall(c) && !c.GetReceipt? && !c.BalanceOf? && !c.MintTokens?
    ensures forall c | c in calls && c.BurnTokens? ::
              c.amount == amount && env.gasPrice.Some? && c.gasPrice == AdjustGasPrice(env.gasPrice.value)
              && c.gasLimit == BurnGasLimit(env.gasEstimate)
    ensures env.gasPrice.Some? ==> BurnTokens(amount, AdjustGasPrice(env.gasPrice.value), BurnGasLimit(env.gasEstimate)) in calls
    ensures env.gasPrice.None? || env.burnTx.None? ==> outcome == Rejected(UnexpectedError)
    ensures env.gasPrice.Some? && env.burnTx.Some? && outcome.Rejected? ==> outcome.kind == ReleaseRefusal(env)
    ensures forall c | c in calls && (c.UnlockWallet? || c.SendToAddress?) ::
              env.gasPrice.Some? && env.burnTx.Some? && FirstConfirmed(env.confirmations).Some?
    ensures forall c | c in calls && c.SendToAddress? ::
              UnlockPasses(env.unlock) && c == SendToAddress(req.targetAddress, ToFixed(CoinUnits(amount)))
    ensures Payouts(calls) ==
              if env.gasPrice.Some? && env.burnTx.Some? && FirstConfirmed(env.confirmations).Some? && UnlockPasses(env.unlock)
              then [SendToAddress(req.targetAddress, ToFixed(CoinUnits(amount)))] else []
    ensures env.gasPrice.Some? && env.burnTx.Some? && FirstConfirmed(env.confirmations).None? ==>
              outcome == BurnUnconfirmed(req.transactionHash, env.burnTx.value, amount) && UnlockWallet !in calls
    ensures env.gasPrice.Some? && env.burnTx.Some? && FirstConfirmed(env.confirmations).Some? ==>
              UnlockWallet in calls
              && (!UnlockPasses(env.unlock) ==> outcome == Rejected(if env.unlock.UnlockUnreachable? then WalletUnreachable else WalletUnlockFailed))
              && (outcome.Released? <==> UnlockPasses(env.unlock) && PayoutAccepted(env.payout))
    ensures outcome.BurnUnconfirmed? ==>
              env.gasPrice.Some? && env.burnTx.Some? && FirstConfirmed(env.confirmations).None?
    ensures outcome.Released? ==>
              env.gasPrice.Some? && UnlockPasses(env.unlock) && PayoutAccepted(env.payout)
              && outcome.burnAmount == amount && env.burnTx == Some(outcome.burnTxHash)
              && FirstConfirmed(env.confirmations) == Some(outcome.burnReceipt)
              && SendToAddress(req.targetAddress, ToFixed(CoinUnits(amount))) in calls
              && outcome.flopTxHash == (if env.payout.body.Some? then env.payout.body.value.result else None)
    ensures ChainActions(calls) == BurnActions(req.targetAddress, amount, env)
  {
    var burnTxHash, burnReceipt, burning := BurnAndConfirm(amount, env);
    calls := burning;
    if burnTxHash.None? || burnReceipt.None? {
      UnreleasedBurnCalls(req, amount, env, burning);
      assert ChainActions(calls) == BurnActions(req.targetAddress, amount, env) by {
        UnreleasedBurnActions(req.targetAddress, amount, env, burning);
      }
      if burnTxHash.None? {
        return Rejected(UnexpectedError), calls;
      }
      return BurnUnconfirmed(req.transactionHash, burnTxHash.value, amount), calls;
    }
    var releasing;
    outcome, releasing := ReleaseBurned(req.targetAddress, amount, burnTxHash.value, burnReceipt.value, env);
    ReleasedBurnCalls(req, amount, env, burning, releasing);
    ReleasedBurnPayouts(req, amount, env, burning, releasing);
    calls := calls + releasing;
    assert ChainActions(calls) == BurnActions(req.targetAddress, amount, env) by {
      ReleasedBurnActions(req.targetAddress, amount, env, burning, releasing);
    }
  }

  /** The chain actions of a burn that never reached the release: the burn alone. */
  lemma UnreleasedBurnActions(target: string, amount: nat, env: Env, burning: seq<Call>)
    requires env.gasPrice.None? || env.burnTx.None? || FirstConfirmed(env.confirmations).None?
    requires ChainActions(burning) ==
               if env.gasPrice.None? then []
               else [BurnTokens(amount, AdjustGasPrice(env.gasPrice.value), BurnGasLimit(env.gasEstimate))]
    ensures ChainActions(burning) == BurnActions(target, amount, env)
  {
    if env.gasPrice.Some? {
      var burn := BurnTokens(amount, AdjustGasPrice(env.gasPrice.value), BurnGasLimit(env.gasEstimate));
      assert BurnActions(target, amount, env) == [burn] + [];
    }
  }

  /** The chain actions of a confirmed burn followed by the release: the burn,
      then the release's unlock and send. */
  lemma ReleasedBurnActions(target: string, amount: nat, env: Env, burning: seq<Call>, releasing: seq<Call>)
    requires env.gasPrice.Some? && env.burnTx.Some? && FirstConfirmed(env.confirmations).Some?
    requires ChainActions(burning) == [BurnTokens(amount, AdjustGasPrice(env.gasPrice.value), BurnGasLimit(env.gasEstimate))]
    requires releasing == [UnlockWallet] + if UnlockPasses(env.unlock) then [SendToAddress(target, ToFixed(CoinUnits(amount)))] else []
    requires ChainActions(releasing) == releasing
    ensures ChainActions(burning + releasing) == BurnActions(target, amount, env)
  {
    ChainActionsAppend(burning, releasing);
  }

  /** The trace of a burn that never reached the release: burn calls only, no payout. */
  lemma UnreleasedBurnCalls(req: Request, amount: nat, env: Env, burning: seq<Call>)
    requires forall c | c in burning :: c.GetGasPrice? || c.EstimateBurnGas? || c.AwaitReceipt?
               || (env.gasPrice.Some? && c == BurnTokens(amount, AdjustGasPrice(env.gasPrice.value), BurnGasLimit(env.gasEstimate)))
    ensures forall c | c in burning :: IsChainCall(c) && !c.GetReceipt? && !c.BalanceOf? && !c.MintTokens?
              && !c.UnlockWallet? && !c.SendToAddress?
    ensures forall c | c in burning && c.BurnTokens? ::
              c.amount == amount && env.gasPrice.Some? && c.gasPrice == AdjustGasPrice(env.gasPrice.value)
              && c.gasLimit == BurnGasLimit(env.gasEstimate)
    ensures UnlockWallet !in burning
    ensures Payouts(burning) == []
  {
    PayoutsNone(burning);
  }

  /** The trace of a confirmed burn followed by the release: the burn's calls,
      then the unlock and at most the one send for `amount`. */
  lemma ReleasedBurnCalls(req: Request, amount: nat, env: Env, burning: seq<Call>, releasing: seq<Call>)
    requires forall c | c in burning :: c.GetGasPrice? || c.EstimateBurnGas? || c.AwaitReceipt?
               || (env.gasPrice.Some? && c == BurnTokens(amount, AdjustGasPrice(env.gasPrice.value), BurnGasLimit(env.gasEstimate)))
    requires UnlockWallet in releasing && forall c | c in releasing :: c.UnlockWallet? || c.SendToAddress?
    requires forall c | c in releasing && c.SendToAddress? ::
               UnlockPasses(env.unlock) && c == SendToAddress(req.targetAddress, ToFixed(CoinUnits(amount)))
    ensures forall c | c in burning + releasing :: IsChainCall(c) && !c.GetReceipt? && !c.BalanceOf? && !c.MintTokens?
    ensures forall c | c in burning + releasing && c.BurnTokens? ::
              c.amount == amount && env.gasPrice.Some? && c.gasPrice == AdjustGasPrice(env.gasPrice.value)
              && c.gasLimit == BurnGasLimit(env.gasEstimate)
    ensures forall c | c in burning + releasing && c.SendToAddress? ::
              UnlockPasses(env.unlock) && c == SendToAddress(req.targetAddress, ToFixed(CoinUnits(amount)))
    ensures forall c | c in burning + releasing && (c.UnlockWallet? || c.SendToAddress?) :: c in releasing
    ensures forall c | c in burning :: c in burning + releasing
    ensures UnlockWallet in burning + releasing
  {
    assert forall c :: c in burning + releasing <==> c in burning || c in releasing;
  }

  /** ...and its payouts are the release's alone. */
  lemma ReleasedBurnPayouts(req: Request, amount: nat, env: Env, burning: seq<Call>, releasing: seq<Call>)
    requires forall c | c in burning :: c.GetGasPrice? || c.EstimateBurnGas? || c.AwaitReceipt? || c.BurnTokens?
    requires Payouts(releasing) ==
               if UnlockPasses(env.unlock) then [SendToAddress(req.targetAddress, ToFixed(CoinUnits(amount)))] else []
    ensures Payouts(burning + releasing) ==
              if UnlockPasses(env.unlock) then [SendToAddress(req.targetAddress, ToFixed(CoinUnits(amount)))] else []
  {
    PayoutsAfterNone(burning, releasing);
  }

  /** WFLOP -> FLOP: verify the burn request, burn with the gas policy, wait
      for the burn, then unlock the FLOP wallet and send the coins. */
  method SwapWflopToFlop(req: Request, env: Env, config: Config) returns (outcome: Outcome, calls: seq<Call>)
    ensures outcome.Rejected? || outcome.Released? || outcome.BurnUnconfirmed?
    ensures forall c | c in calls :: !c.LookupTxId? && !c.RecordTxId? && !c.MintTokens?
    ensures !IsFlopAddress(req.targetAddress) ==> outcome == Rejected(InvalidFlopAddress) && calls == []
    ensures AuthorizedBurn(req, env, config).None? ==> outcome.Rejected? && forall c | c in calls :: !IsChainAction(c)
    ensures forall c | c in calls && c.BurnTokens? ::
              AuthorizedBurn(req, env, config) == Some(c.amount)
              && env.gasPrice.Some? && c.gasPrice == AdjustGasPrice(env.gasPrice.value)
              && c.gasLimit == BurnGasLimit(env.gasEstimate)
    ensures AuthorizedBurn(req, env, config).Some? && env.gasPrice.Some? ==>
              BurnTokens(AuthorizedBurn(req, env, config).value, AdjustGasPrice(env.gasPrice.value), BurnGasLimit(env.gasEstimate)) in calls
    ensures forall c | c in calls && (c.UnlockWallet? || c.SendToAddress?) ::
              env.burnTx.Some? && FirstConfirmed(env.confirmations).Some?
    ensures UnlockWallet in calls && env.unlock.UnlockError? && !UnlockPasses(env.unlock) ==>
              outcome == Rejected(WalletUnlockFailed)
    ensures outcome.BurnUnconfirmed? ==>
              AuthorizedBurn(req, env, config) == Some(outcome.burnAmount)
              && outcome.polygonTxHash == req.transactionHash && env.burnTx == Some(outcome.burnTxHash)
              && FirstConfirmed(env.confirmations).None? && UnlockWallet !in calls
    ensures outcome.Released? ==>
              AuthorizedBurn(req, env, config) == Some(outcome.burnAmount)
              && env.burnTx == Some(outcome.burnTxHash)
              && FirstConfirmed(env.confirmations) == Some(outcome.burnReceipt)
              && UnlockPasses(env.unlock) && PayoutAccepted(env.payout)
              && SendToAddress(req.targetAddress, ToFixed(CoinUnits(outcome.burnAmount))) in calls
              && outcome.flopTxHash == (if env.payout.body.Some? then env.payout.body.value.result else None)
    ensures AuthorizedBurn(req, env, config).Some? && (env.gasPrice.None? || env.burnTx.None?) ==>
              outcome == Rejected(UnexpectedError)
    ensures AuthorizedBurn(req, env, config).Some? && env.gasPrice.Some? && env.burnTx.Some?
            && FirstConfirmed(env.confirmations).None? ==>
              outcome == BurnUnconfirmed(req.transactionHash, env.burnTx.value, AuthorizedBurn(req, env, config).value)
    ensures AuthorizedBurn(req, env, config).Some? && env.gasPrice.Some? && env.burnTx.Some?
            && FirstConfirmed(env.confirmations).Some? ==>
              (outcome.Released? <==> UnlockPasses(env.unlock) && PayoutAccepted(env.payout))
    ensures outcome.Rejected? ==> outcome.kind == WflopRefusal(req, env, config)
    ensures forall c | c in calls && (c.UnlockWallet? || c.SendToAddress?) :: PayoutForBurn(c, req, env, config)
    ensures Payouts(calls) == EarnedPayouts(req, env, config)
    ensures ChainActions(calls) ==
              if AuthorizedBurn(req, env, config).Some?
              then BurnActions(req.targetAddress, AuthorizedBurn(req, env, config).value, env) else []
  {
    var check, verifying := VerifyBurn(req, env, config);
    if check.BurnRefused? {
      RefusedBurnCalls(req, env, config, verifying);
      assert ChainActions(verifying) == [] by { ChainActionsNone(verifying); }
      return Rejected(check.kind), verifying;
    }
    var releasing;
    outcome, releasing := BurnAndRelease(req, check.amount, env);
    BurnFlowCalls(req, env, config, check.amount, verifying, releasing);
    BurnFlowReleases(req, env, config, check.amount, verifying, releasing);
    BurnFlowPayouts(req, env, config, check.amount, verifying, releasing);
    BurnFlowActions(req, env, config, check.amount, verifying, releasing);
    calls := verifying + releasing;
  }

  /** The calls of WFLOP -> FLOP for an authorised burn: the checks' reads,
      then the burn and the release. Every chain action comes from the
      release, and the burn is of the authorised amount. */
  lemma BurnFlowCalls(req: Request, env: Env, config: Config, amount: nat, verifying: seq<Call>, releasing: seq<Call>)
    requires AuthorizedBurn(req, env, config) == Some(amount)
    requires forall c | c in verifying :: c.GetReceipt? || c.RecoverSigner? || c.BalanceOf?
    requires forall c | c in releasing :: IsChainCall(c) && !c.GetReceipt? && !c.BalanceOf? && !c.MintTokens?
    requires forall c | c in releasing && c.BurnTokens? ::
               c.amount == amount && env.gasPrice.Some? && c.gasPrice == AdjustGasPrice(env.gasPrice.value)
               && c.gasLimit == BurnGasLimit(env.gasEstimate)
    requires env.gasPrice.Some? ==> BurnTokens(amount, AdjustGasPrice(env.gasPrice.value), BurnGasLimit(env.gasEstimate)) in releasing
    ensures forall c | c in verifying + releasing :: !c.LookupTxId? && !c.RecordTxId? && !c.MintTokens?
    ensures forall c | c in verifying + releasing && c.BurnTokens? ::
              AuthorizedBurn(req, env, config) == Some(c.amount)
              && env.gasPrice.Some? && c.gasPrice == AdjustGasPrice(env.gasPrice.value)
              && c.gasLimit == BurnGasLimit(env.gasEstimate)
    ensures env.gasPrice.Some? ==>
              BurnTokens(AuthorizedBurn(req, env, config).value, AdjustGasPrice(env.gasPrice.value), BurnGasLimit(env.gasEstimate))
                in verifying + releasing
    ensures forall c :: c in releasing ==> c in verifying + releasing
    ensures UnlockWallet in verifying + releasing <==> UnlockWallet in releasing
  {
  }

  /** The payouts of WFLOP -> FLOP for an authorised burn: the checks send
      nothing, so the only payout is the release's, the earned one. */
  lemma BurnFlowPayouts(req: Request, env: Env, config: Config, amount: nat, verifying: seq<Call>, releasing: seq<Call>)
    requires AuthorizedBurn(req, env, config) == Some(amount)
    requires forall c | c in verifying :: c.GetReceipt? || c.RecoverSigner? || c.BalanceOf?
    requires Payouts(releasing) ==
               if env.gasPrice.Some? && env.burnTx.Some? && FirstConfirmed(env.confirmations).Some? && UnlockPasses(env.unlock)
               then [SendToAddress(req.targetAddress, ToFixed(CoinUnits(amount)))] else []
    ensures Payouts(verifying + releasing) == EarnedPayouts(req, env, config)
  {
    PayoutsAfterNone(verifying, releasing);
  }

  /** The unlock and the send of WFLOP -> FLOP for an authorised burn come
      from the release and follow the confirmed burn, the send being the
      earned one. */
  lemma BurnFlowReleases(req: Request, env: Env, config: Config, amount: nat, verifying: seq<Call>, releasing: seq<Call>)
    requires AuthorizedBurn(req, env, config) == Some(amount)
    requires forall c | c in verifying :: c.GetReceipt? || c.RecoverSigner? || c.BalanceOf?
    requires forall c | c in releasing && (c.UnlockWallet? || c.SendToAddress?) ::
               env.gasPrice.Some? && env.burnTx.Some? && FirstConfirmed(env.confirmations).Some?
    requires forall c | c in releasing && c.SendToAddress? ::
               UnlockPasses(env.unlock) && c == SendToAddress(req.targetAddress, ToFixed(CoinUnits(amount)))
    ensures forall c | c in verifying + releasing && (c.UnlockWallet? || c.SendToAddress?) ::
              env.burnTx.Some? && FirstConfirmed(env.confirmations).Some? && PayoutForBurn(c, req, env, config)
  {
    assert forall c | c in verifying + releasing :: c in verifying || c in releasing;
  }

  /** The chain actions of WFLOP -> FLOP for an authorised burn are those of
      the burn and the release: the checks' reads add none. */
  lemma BurnFlowActions(req: Request, env: Env, config: Config, amount: nat, verifying: seq<Call>, releasing: seq<Call>)
    requires AuthorizedBurn(req, env, config) == Some(amount)
    requires forall c | c in verifying :: c.GetReceipt? || c.RecoverSigner? || c.BalanceOf?
    requires ChainActions(releasing) == BurnActions(req.targetAddress, amount, env)
    ensures ChainActions(verifying + releasing) ==
              if AuthorizedBurn(req, env, config).Some?
              then BurnActions(req.targetAddress, AuthorizedBurn(req, env, config).value, env) else []
  {
    QuietActions(verifying, releasing);
  }

  /** The calls of WFLOP -> FLOP for a refused burn are the checks' reads alone. */
  lemma RefusedBurnCalls(req: Request, env: Env, config: Config, verifying: seq<Call>)
    requires AuthorizedBurn(req, env, config).None?
    requires forall c | c in verifying :: c.GetReceipt? || c.RecoverSigner? || c.BalanceOf?
    ensures forall c | c in verifying :: !c.LookupTxId? && !c.RecordTxId? && !c.MintTokens? && !IsChainAction(c)
    ensures UnlockWallet !in verifying
    ensures Payouts(verifying) == [] == EarnedPayouts(req, env, config)
  {
    PayoutsNone(verifying);
  }

  /** Every call of the FLOP -> WFLOP flow up to the receipt wait succeeds:
      a Polygon target, a deposit in the FLOP transaction, a gas price and a
      mint hash. */
  predicate MintCallsSucceed(req: Request, env: Env, config: Config)
  {
    req.swapOption == FlopToWflop && env.isAddress(req.targetAddress)
    && CheckDeposit(env.transaction, config.flopDepositAddress).Deposit?
    && env.gasPrice.Some? && env.mintTx.Some?
  }

  /** Every check and call of the WFLOP -> FLOP flow up to the receipt wait
      succeeds: an authorised burn, a gas price and a burn hash. */
  predicate BurnCallsSucceed(req: Request, env: Env, config: Config)
  {
    req.swapOption == WflopToFlop && AuthorizedBurn(req, env, config).Some?
    && env.gasPrice.Some? && env.burnTx.Some?
  }

  /** The authorised burn of a WFLOP -> FLOP request went through and its
      receipt confirmed. */
  predicate BurnConfirmed(req: Request, env: Env, config: Config)
  {
    AuthorizedBurn(req, env, config).Some? && env.gasPrice.Some? && env.burnTx.Some?
    && FirstConfirmed(env.confirmations).Some?
  }

  /** A 200 reply stands for calls that went through: a minted or "not yet
      confirmed" outcome needs every call of its direction up to the receipt
      wait to have succeeded, a release also the unlock and the send, and
      each reports the hashes and the receipt those calls returned. */
  predicate ReportsSucceededCalls(o: Outcome, req: Request, env: Env, config: Config)
  {
    && (o.Minted? || o.MintUnconfirmed? ==>
          MintCallsSucceed(req, env, config) && env.mintTx == Some(o.polygonTxHash)
          && (o.MintUnconfirmed? <==> FirstConfirmed(env.confirmations).None?))
    && (o.Minted? ==> FirstConfirmed(env.confirmations) == Some(o.receipt))
    && (o.Released? ==>
          BurnCallsSucceed(req, env, config) && env.burnTx == Some(o.burnTxHash)
          && FirstConfirmed(env.confirmations) == Some(o.burnReceipt)
          && UnlockPasses(env.unlock) && PayoutAccepted(env.payout)
          && o.flopTxHash == (if env.payout.body.Some? then env.payout.body.value.result else None))
    && (o.BurnUnconfirmed? ==>
          BurnCallsSucceed(req, env, config) && FirstConfirmed(env.confirmations).None?
          && env.burnTx == Some(o.burnTxHash) && o.polygonTxHash == req.transactionHash)
  }

  /** Every call of the request's direction succeeded and its receipt
      confirmed: the case in which the handler records the transaction id. */
  predicate FullSuccess(req: Request, env: Env, config: Config)
  {
    FirstConfirmed(env.confirmations).Some?
    && (MintCallsSucceed(req, env, config)
        || (BurnCallsSucceed(req, env, config) && UnlockPasses(env.unlock) && PayoutAccepted(env.payout)))
  }

  /** The FLOP send a WFLOP -> FLOP request earns: the burned amount,
      truncated to 8 decimals, to the target. */
  function EarnedSend(req: Request, env: Env, config: Config): Call
    requires AuthorizedBurn(req, env, config).Some?
  {
    SendToAddress(req.targetAddress, ToFixed(CoinUnits(AuthorizedBurn(req, env, config).value)))
  }

  /** The payouts a WFLOP -> FLOP request earns: one `EarnedSend` once the
      burn is confirmed and the wallet unlocks, none otherwise. */
  function EarnedPayouts(req: Request, env: Env, config: Config): seq<Call>
  {
    if BurnConfirmed(req, env, config) && UnlockPasses(env.unlock) then [EarnedSend(req, env, config)] else []
  }

  /** An unlock or send of this request comes after its confirmed burn, and a
      send is the earned one after an unlock that passed. */
  predicate PayoutForBurn(c: Call, req: Request, env: Env, config: Config)
  {
    BurnConfirmed(req, env, config)
    && (c.SendToAddress? ==> UnlockPasses(env.unlock) && c == EarnedSend(req, env, config))
  }

  /** A mint call for this request: FLOP -> WFLOP, to the target, for the
      found deposit converted to 18 decimals, at the marked-up gas price. */
  predicate MintMatchesDeposit(c: Call, req: Request, env: Env, config: Config)
    requires c.MintTokens?
  {
    req.swapOption == FlopToWflop && c.to == req.targetAddress
    && CheckDeposit(env.transaction, config.flopDepositAddress).Deposit?
    && c.amount == CheckDeposit(env.transaction, config.flopDepositAddress).units * WflopScale
    && env.gasPrice.Some? && c.gasPrice == AdjustGasPrice(env.gasPrice.value)
  }

  /** A burn call for this request: of the authorised amount, at the
      marked-up gas price, with the estimated or fallback gas limit. */
  predicate BurnMatchesAuthorization(c: Call, req: Request, env: Env, config: Config)
    requires c.BurnTokens?
  {
    AuthorizedBurn(req, env, config) == Some(c.amount)
    && env.gasPrice.Some? && c.gasPrice == AdjustGasPrice(env.gasPrice.value)
    && c.gasLimit == BurnGasLimit(env.gasEstimate)
  }

  /** The chain actions in a request's trace are the ones its checks allow:
      a burn only of the authorised amount with the gas policy's settings, a
      mint only of the found deposit to the target, and an unlock or a send
      only for a confirmed burn, the send being the earned one. */
  predicate ActionsAllowed(calls: seq<Call>, req: Request, env: Env, config: Config)
  {
    (forall c | c in calls && c.BurnTokens? :: BurnMatchesAuthorization(c, req, env, config))
    && (forall c | c in calls && c.MintTokens? :: MintMatchesDeposit(c, req, env, config))
    && (forall c | c in calls && (c.UnlockWallet? || c.SendToAddress?) ::
          req.swapOption == WflopToFlop && PayoutForBurn(c, req, env, config))
  }

  /** The mint a FLOP -> WFLOP request earns: the found deposit converted to
      18 decimals, to a valid Polygon target, at the marked-up gas price; none
      where the address check, the deposit or the gas price read fails. */
  function EarnedMint(req: Request, env: Env, config: Config): seq<Call>
  {
    if env.isAddress(req.targetAddress) then DepositMint(req, env, config) else []
  }

  /** The mint of the deposit found in the FLOP transaction, once a gas price
      is read. */
  function DepositMint(req: Request, env: Env, config: Config): seq<Call>
  {
    var deposit := CheckDeposit(env.transaction, config.flopDepositAddress);
    if deposit.Deposit? && env.gasPrice.Some?
    then [MintTokens(req.targetAddress, deposit.units * WflopScale, AdjustGasPrice(env.gasPrice.value))]
    else []
  }

  /** The chain actions of a burn of `amount` for `target`, in order: the burn
      with the gas policy's settings once a gas price is read, then, once the
      burn has a hash and a confirmed receipt, the unlock, then, once the
      unlock passes, the send of the coins. */
  function BurnActions(target: string, amount: nat, env: Env): seq<Call>
  {
    if env.gasPrice.None? then []
    else
      [BurnTokens(amount, AdjustGasPrice(env.gasPrice.value), BurnGasLimit(env.gasEstimate))]
      + if env.burnTx.Some? && FirstConfirmed(env.confirmations).Some? then
          [UnlockWallet] + if UnlockPasses(env.unlock) then [SendToAddress(target, ToFixed(CoinUnits(amount)))] else []
        else []
  }

  /** The chain actions a checked, new request earns: the mint of its deposit
      for FLOP -> WFLOP, the actions of the authorised burn for WFLOP -> FLOP,
      nothing for a refused burn or another swap option. */
  function EarnedActions(req: Request, env: Env, config: Config): seq<Call>
  {
    if req.swapOption == FlopToWflop then EarnedMint(req, env, config)
    else if req.swapOption == WflopToFlop && AuthorizedBurn(req, env, config).Some? then
      BurnActions(req.targetAddress, AuthorizedBurn(req, env, config).value, env)
    else []
  }

  /** The earned actions hold at most one mint and at most one burn; the burn
      comes first, and the unlock and the send only after it, in that order. */
  lemma EarnedActionsOrder(req: Request, env: Env, config: Config)
    ensures |EarnedActions(req, env, config)| <= 3
    ensures forall i | 0 < i < |EarnedActions(req, env, config)| ::
              !EarnedActions(req, env, config)[i].MintTokens? && !EarnedActions(req, env, config)[i].BurnTokens?
    ensures forall i | 0 <= i < |EarnedActions(req, env, config)| && EarnedActions(req, env, config)[i].UnlockWallet? ::
              i == 1 && EarnedActions(req, env, config)[0].BurnTokens?
    ensures forall i | 0 <= i < |EarnedActions(req, env, config)| && EarnedActions(req, env, config)[i].SendToAddress? ::
              i == 2 && EarnedActions(req, env, config)[0].BurnTokens? && EarnedActions(req, env, config)[1].UnlockWallet?
  {
  }

  /** The payouts among the earned actions are the earned payouts. */
  lemma EarnedActionsPayouts(req: Request, env: Env, config: Config)
    ensures Payouts(EarnedActions(req, env, config)) ==
              if req.swapOption == WflopToFlop then EarnedPayouts(req, env, config) else []
  {
    if req.swapOption == FlopToWflop {
      PayoutsNone(EarnedActions(req, env, config));
    } else if req.swapOption == WflopToFlop && AuthorizedBurn(req, env, config).Some? && env.gasPrice.Some? {
      var amount := AuthorizedBurn(req, env, config).value;
      var burn := BurnTokens(amount, AdjustGasPrice(env.gasPrice.value), BurnGasLimit(env.gasEstimate));
      var released := BurnActions(req.targetAddress, amount, env)[1..];
      assert BurnActions(req.targetAddress, amount, env) == [burn] + released;
      PayoutsOne(burn);
      PayoutsAppend([burn], released);
      if env.burnTx.Some? && FirstConfirmed(env.confirmations).Some? {
        var sent := if UnlockPasses(env.unlock) then [SendToAddress(req.targetAddress, ToFixed(CoinUnits(amount)))] else [];
        assert released == [UnlockWallet] + sent;
        PayoutsOne(UnlockWallet);
        PayoutsAppend([UnlockWallet], sent);
        if UnlockPasses(env.unlock) {
          PayoutsOne(SendToAddress(req.targetAddress, ToFixed(CoinUnits(amount))));
        }
      } else {
        assert released == [];
      }
    }
  }

  /** The outcome of FLOP -> WFLOP, as its flow states it, reports only
      succeeded calls. */
  lemma MintReportsSucceeded(outcome: Outcome, req: Request, env: Env, config: Config)
    requires req.swapOption == FlopToWflop
    requires outcome.Rejected? || outcome.Minted? || outcome.MintUnconfirmed?
    requires !env.isAddress(req.targetAddress) ==> outcome == Rejected(InvalidPolygonAddress)
    requires outcome.Minted? || outcome.MintUnconfirmed? ==>
               CheckDeposit(env.transaction, config.flopDepositAddress).Deposit?
               && env.gasPrice.Some? && env.mintTx == Some(outcome.polygonTxHash)
    requires outcome.Minted? ==> FirstConfirmed(env.confirmations) == Some(outcome.receipt)
    requires outcome.MintUnconfirmed? ==> FirstConfirmed(env.confirmations).None?
    ensures ReportsSucceededCalls(outcome, req, env, config)
  {
  }

  /** The outcome of WFLOP -> FLOP, as its flow states it, reports only
      succeeded calls. */
  lemma BurnReportsSucceeded(outcome: Outcome, req: Request, env: Env, config: Config)
    requires req.swapOption == WflopToFlop
    requires outcome.Rejected? || outcome.Released? || outcome.BurnUnconfirmed?
    requires AuthorizedBurn(req, env, config).Some? && (env.gasPrice.None? || env.burnTx.None?) ==>
               outcome == Rejected(UnexpectedError)
    requires AuthorizedBurn(req, env, config).None? ==> outcome.Rejected?
    requires outcome.BurnUnconfirmed? ==>
               AuthorizedBurn(req, env, config) == Some(outcome.burnAmount)
               && outcome.polygonTxHash == req.transactionHash && env.burnTx == Some(outcome.burnTxHash)
               && FirstConfirmed(env.confirmations).None?
    requires outcome.Released? ==>
               AuthorizedBurn(req, env, config) == Some(outcome.burnAmount)
               && env.burnTx == Some(outcome.burnTxHash)
               && FirstConfirmed(env.confirmations) == Some(outcome.burnReceipt)
               && UnlockPasses(env.unlock) && PayoutAccepted(env.payout)
               && outcome.flopTxHash == (if env.payout.body.Some? then env.payout.body.value.result else None)
    ensures ReportsSucceededCalls(outcome, req, env, config)
  {
  }

  /** The handler past the duplicate check: dispatch on the swap option. */
  method Settle(req: Request, env: Env, config: Config) returns (outcome: Outcome, calls: seq<Call>)
    ensures forall c | c in calls :: !c.LookupTxId? && !c.RecordTxId?
    ensures req.swapOption == WflopToFlop && !IsFlopAddress(req.targetAddress) ==>
              outcome == Rejected(InvalidFlopAddress) && calls == []
    ensures req.swapOption != FlopToWflop && req.swapOption != WflopToFlop ==>
              outcome == Rejected(InvalidSwapOption) && calls == []
    ensures outcome.Minted? || outcome.MintUnconfirmed? ==>
              req.swapOption == FlopToWflop
              && CheckDeposit(env.transaction, config.flopDepositAddress).Deposit?
              && outcome.mintedAmount == CheckDeposit(env.transaction, config.flopDepositAddress).units * WflopScale
    ensures outcome.Released? || outcome.BurnUnconfirmed? ==>
              req.swapOption == WflopToFlop && AuthorizedBurn(req, env, config) == Some(outcome.burnAmount)
    ensures MintCallsSucceed(req, env, config) ==>
              (outcome.Minted? || outcome.MintUnconfirmed?)
              && (outcome.MintUnconfirmed? <==> FirstConfirmed(env.confirmations).None?)
    ensures BurnCallsSucceed(req, env, config) && FirstConfirmed(env.confirmations).None? ==>
              outcome == BurnUnconfirmed(req.transactionHash, env.burnTx.value, AuthorizedBurn(req, env, config).value)
    ensures BurnCallsSucceed(req, env, config) && FirstConfirmed(env.confirmations).Some? ==>
              (outcome.Released? <==> UnlockPasses(env.unlock) && PayoutAccepted(env.payout))
    ensures outcome.Rejected? ==> outcome.kind == SettleRefusal(req, env, config)
    ensures ActionsAllowed(calls, req, env, config)
    ensures Payouts(calls) == if req.swapOption == WflopToFlop then EarnedPayouts(req, env, config) else []
    ensures ChainActions(calls) == EarnedActions(req, env, config)
    ensures ReportsSucceededCalls(outcome, req, env, config)
  {
    if req.swapOption == FlopToWflop {
      outcome, calls := SwapFlopToWflop(req, env, config);
      PayoutsNone(calls);
      assert ReportsSucceededCalls(outcome, req, env, config) by { MintReportsSucceeded(outcome, req, env, config); }
    } else if req.swapOption == WflopToFlop {
      outcome, calls := SwapWflopToFlop(req, env, config);
      assert ReportsSucceededCalls(outcome, req, env, config) by { BurnReportsSucceeded(outcome, req, env, config); }
    } else {
      outcome, calls := Rejected(InvalidSwapOption), [];
    }
  }

  /** The checks before the duplicate check: the HTTP method, the required
      fields and the ownership proof of the chosen direction. */
  method Precheck(req: Request, env: Env) returns (rejection: Option<Rejection>, calls: seq<Call>)
    ensures rejection.None? <==> req.httpMethod == "POST" && !HasMissingParameter(req) && SignaturePrecheckPasses(req, env)
    ensures req.httpMethod != "POST" ==> rejection == Some(MethodNotAllowed) && calls == []
    ensures req.httpMethod == "POST" && HasMissingParameter(req) ==> rejection == Some(MissingParameters) && calls == []
    ensures req.httpMethod == "POST" && !HasMissingParameter(req) && req.swapOption == FlopToWflop ==>
              calls == [VerifyMessage(req.signerAddress, req.signMessageText)]
              && (env.verifyMessage == VerifyUnreachable ==> rejection == Some(SignatureRpcFailed))
              && (env.verifyMessage == VerifyResult(false) ==> rejection == Some(SignatureNotVerified))
    ensures req.httpMethod == "POST" && !HasMissingParameter(req) && req.swapOption == WflopToFlop ==>
              calls == [RecoverSigner(req.signMessageText)]
              && (rejection.Some? ==> rejection == Some(InvalidSignature))
    ensures req.swapOption != FlopToWflop && req.swapOption != WflopToFlop ==> calls == []
    ensures OnlySignatureChecks(calls)
  {
    calls := [];
    if req.httpMethod != "POST" {
      return Some(MethodNotAllowed), calls;
    }
    if HasMissingParameter(req) {
      return Some(MissingParameters), calls;
    }
    if req.swapOption == WflopToFlop {
      calls := [RecoverSigner(req.signMessageText)];
      if env.recoverSigner(req.signMessageText, req.signature).None? {
        return Some(InvalidSignature), calls;
      }
    } else if req.swapOption == FlopToWflop {
      calls := [VerifyMessage(req.signerAddress, req.signMessageText)];
      match env.verifyMessage {
        case VerifyUnreachable => return Some(SignatureRpcFailed), calls;
        case VerifyResult(verified) =>
          if !verified {
            return Some(SignatureNotVerified), calls;
          }
      }
    }
    return None, calls;
  }

  /** The request is a POST with every field and a valid ownership proof. */
  predicate PassesPrechecks(req: Request, env: Env)
  {
    req.httpMethod == "POST" && !HasMissingParameter(req) && SignaturePrecheckPasses(req, env)
  }

  /** Every call that reads from or acts on either chain comes after the
      duplicate lookup of `txid`. */
  predicate LookupPrecedesChainCalls(calls: seq<Call>, txid: string)
  {
    forall i | 0 <= i < |calls| && IsChainCall(calls[i]) :: LookupTxId(txid) in calls[..i]
  }

  lemma LookupThenAnything(pre: seq<Call>, txid: string, rest: seq<Call>)
    requires forall c | c in pre :: !IsChainCall(c)
    ensures LookupPrecedesChainCalls(pre + [LookupTxId(txid)] + rest, txid)
  {
    var calls := pre + [LookupTxId(txid)] + rest;
    forall i | 0 <= i < |calls| && IsChainCall(calls[i]) ensures LookupTxId(txid) in calls[..i] {
      if i >= |pre| {
        assert calls[..i][|pre|] == LookupTxId(txid);
      }
    }
  }

  lemma LookupPrecedesAppend(calls: seq<Call>, txid: string, c: Call)
    requires LookupPrecedesChainCalls(calls, txid) && !IsChainCall(c)
    ensures LookupPrecedesChainCalls(calls + [c], txid)
  {
    var extended := calls + [c];
    forall i | 0 <= i < |extended| && IsChainCall(extended[i]) ensures LookupTxId(txid) in extended[..i] {
      assert extended[i] == calls[i];
      assert extended[..i] == calls[..i];
    }
  }

  /** The trace holds ownership checks only. */
  predicate OnlySignatureChecks(calls: seq<Call>)
  {
    forall c | c in calls :: IsSignatureCheck(c)
  }

  /** The trace holds ownership checks and the duplicate lookup only. */
  predicate ChecksAndLookupOnly(calls: seq<Call>)
  {
    forall c | c in calls :: IsSignatureCheck(c) || c.LookupTxId?
  }

  /** The trace neither reads from nor acts on either chain. */
  predicate NoChainCalls(calls: seq<Call>)
  {
    forall c | c in calls :: !IsChainCall(c)
  }

  /** The trace does not record the transaction id. */
  predicate NoRecord(calls: seq<Call>)
  {
    forall c | c in calls :: !c.RecordTxId?
  }

  /** Ownership checks put in front of a trace add no record call, no chain
      action and no payout to it... */
  lemma JoinActions(req: Request, env: Env, config: Config, pre: seq<Call>, rest: seq<Call>)
    requires OnlySignatureChecks(pre)
    requires NoRecord(rest) && ActionsAllowed(rest, req, env, config)
    ensures NoRecord(pre + rest) && ActionsAllowed(pre + rest, req, env, config)
    ensures Payouts(pre + rest) == Payouts(rest)
  {
    assert forall c :: c in pre + rest <==> c in pre || c in rest;
    PayoutsAfterNone(pre, rest);
  }

  /** ...add no chain action... */
  lemma JoinChainActions(pre: seq<Call>, rest: seq<Call>)
    requires OnlySignatureChecks(pre)
    ensures ChainActions(pre) == []
    ensures ChainActions(pre + rest) == ChainActions(rest)
  {
    QuietActions(pre, rest);
    ChainActionsNone(pre);
  }

  /** ...keep the lookup ahead of every chain call... */
  lemma JoinLookup(pre: seq<Call>, rest: seq<Call>, txid: string)
    requires OnlySignatureChecks(pre)
    requires LookupPrecedesChainCalls(rest, txid)
    ensures LookupPrecedesChainCalls(pre + rest, txid)
  {
    var joined := pre + rest;
    assert forall k | 0 <= k < |pre| :: joined[k] == pre[k] && pre[k] in pre;
    forall i | 0 <= i < |joined| && IsChainCall(joined[i]) ensures LookupTxId(txid) in joined[..i] {
      var j := i - |pre|;
      assert joined[i] == rest[j];
      assert LookupTxId(txid) in rest[..j];
      assert joined[..i] == pre + rest[..j];
    }
  }

  /** ...and leave a trace of checks and the lookup, or one without chain
      calls, as it was. */
  lemma JoinShape(pre: seq<Call>, rest: seq<Call>)
    requires OnlySignatureChecks(pre)
    ensures ChecksAndLookupOnly(rest) ==> ChecksAndLookupOnly(pre + rest)
    ensures NoChainCalls(rest) ==> NoChainCalls(pre + rest)
  {
    assert forall c :: c in pre + rest <==> c in pre || c in rest;
  }

  /** Appending the record call keeps the allowed chain actions. */
  lemma RecordKeepsActions(calls: seq<Call>, txid: string, req: Request, env: Env, config: Config)
    requires ActionsAllowed(calls, req, env, config)
    ensures ActionsAllowed(calls + [RecordTxId(txid)], req, env, config)
  {
    assert forall c :: c in calls + [RecordTxId(txid)] <==> c in calls || c == RecordTxId(txid);
  }

  /** A direction's outcome that reports only succeeded calls, and settles
      whenever they all succeed, settles exactly on full success and is
      refused whenever a call before the receipt wait failed. */
  lemma SettledExactlyOnSuccess(outcome: Outcome, req: Request, env: Env, config: Config)
    requires ReportsSucceededCalls(outcome, req, env, config)
    requires outcome.Rejected? ==> outcome.kind == SettleRefusal(req, env, config)
    requires MintCallsSucceed(req, env, config) ==>
               (outcome.Minted? || outcome.MintUnconfirmed?)
               && (outcome.MintUnconfirmed? <==> FirstConfirmed(env.confirmations).None?)
    requires BurnCallsSucceed(req, env, config) && FirstConfirmed(env.confirmations).Some? ==>
               (outcome.Released? <==> UnlockPasses(env.unlock) && PayoutAccepted(env.payout))
    ensures IsSettled(outcome) <==> FullSuccess(req, env, config)
    ensures !FullSuccess(req, env, config)
            && !((MintCallsSucceed(req, env, config) || BurnCallsSucceed(req, env, config))
                 && FirstConfirmed(env.confirmations).None?) ==>
              outcome == Rejected(SettleRefusal(req, env, config))
  {
  }

  /** The handler past the ownership check: the duplicate lookup, then, for a
      new id, the chosen direction. */
  method Admit(req: Request, env: Env, config: Config, duplicate: bool) returns (outcome: Outcome, calls: seq<Call>)
    ensures |calls| > 0 && calls[0] == LookupTxId(req.transactionHash) && NoRecord(calls)
    ensures duplicate ==> outcome == Rejected(AlreadyProcessed) && calls == [LookupTxId(req.transactionHash)]
    ensures LookupPrecedesChainCalls(calls, req.transactionHash)
    ensures req.swapOption == WflopToFlop && !IsFlopAddress(req.targetAddress) ==> NoChainCalls(calls)
    ensures !duplicate && req.swapOption != FlopToWflop && req.swapOption != WflopToFlop ==>
              outcome == Rejected(InvalidSwapOption)
    ensures outcome.Minted? || outcome.MintUnconfirmed? ==>
              !duplicate && req.swapOption == FlopToWflop
              && CheckDeposit(env.transaction, config.flopDepositAddress).Deposit?
              && outcome.mintedAmount == CheckDeposit(env.transaction, config.flopDepositAddress).units * WflopScale
    ensures outcome.Released? || outcome.BurnUnconfirmed? ==>
              !duplicate && req.swapOption == WflopToFlop && AuthorizedBurn(req, env, config) == Some(outcome.burnAmount)
    ensures !duplicate && outcome.Rejected? ==> outcome.kind == SettleRefusal(req, env, config)
    ensures ActionsAllowed(calls, req, env, config)
    ensures Payouts(calls) == if !duplicate && req.swapOption == WflopToFlop then EarnedPayouts(req, env, config) else []
    ensures ChainActions(calls) == if !duplicate then EarnedActions(req, env, config) else []
    ensures !duplicate && MintCallsSucceed(req, env, config) ==>
              (outcome.Minted? || outcome.MintUnconfirmed?)
              && (outcome.MintUnconfirmed? <==> FirstConfirmed(env.confirmations).None?)
    ensures !duplicate && BurnCallsSucceed(req, env, config) && FirstConfirmed(env.confirmations).None? ==>
              outcome == BurnUnconfirmed(req.transactionHash, env.burnTx.value, AuthorizedBurn(req, env, config).value)
    ensures !duplicate && BurnCallsSucceed(req, env, config) && FirstConfirmed(env.confirmations).Some? ==>
              (outcome.Released? <==> UnlockPasses(env.unlock) && PayoutAccepted(env.payout))
    ensures ReportsSucceededCalls(outcome, req, env, config)
  {
    var looked := [LookupTxId(req.transactionHash)];
    if duplicate {
      LookupThenAnything([], req.transactionHash, []);
      assert looked == [] + [LookupTxId(req.transactionHash)] + [];
      PayoutsOne(LookupTxId(req.transactionHash));
      assert ChainActions(looked) == [] by { ChainActionsOne(LookupTxId(req.transactionHash)); }
      return Rejected(AlreadyProcessed), looked;
    }
    var flowCalls;
    outcome, flowCalls := Settle(req, env, config);
    LookupFirst(req, env, config, flowCalls);
    calls := looked + flowCalls;
    assert ChainActions(calls) == ChainActions(flowCalls) by { QuietCall(LookupTxId(req.transactionHash), flowCalls); }
  }

  /** The lookup put in front of a direction's calls precedes every chain
      call and adds no chain action and no payout. */
  lemma LookupFirst(req: Request, env: Env, config: Config, flowCalls: seq<Call>)
    requires forall c | c in flowCalls :: !c.LookupTxId? && !c.RecordTxId?
    requires ActionsAllowed(flowCalls, req, env, config)
    ensures NoRecord([LookupTxId(req.transactionHash)] + flowCalls)
    ensures ActionsAllowed([LookupTxId(req.transactionHash)] + flowCalls, req, env, config)
    ensures Payouts([LookupTxId(req.transactionHash)] + flowCalls) == Payouts(flowCalls)
    ensures LookupPrecedesChainCalls([LookupTxId(req.transactionHash)] + flowCalls, req.transactionHash)
    ensures (req.swapOption == WflopToFlop && !IsFlopAddress(req.targetAddress) && flowCalls == []) ==>
              NoChainCalls([LookupTxId(req.transactionHash)] + flowCalls)
  {
    var looked := [LookupTxId(req.transactionHash)];
    QuietPrefix(looked, flowCalls);
    assert forall c :: c in looked + flowCalls <==> c == LookupTxId(req.transactionHash) || c in flowCalls;
    LookupThenAnything([], req.transactionHash, flowCalls);
    assert looked + flowCalls == [] + [LookupTxId(req.transactionHash)] + flowCalls;
  }

  /** Admit's outcome for a request that passed the pre-checks, as Dispatch
      reports it: settled exactly on full success, refused when a call before
      the receipt wait failed. */
  lemma AdmittedVerdict(outcome: Outcome, req: Request, env: Env, config: Config, duplicate: bool)
    requires PassesPrechecks(req, env)
    requires duplicate ==> outcome == Rejected(AlreadyProcessed)
    requires ReportsSucceededCalls(outcome, req, env, config)
    requires !duplicate && outcome.Rejected? ==> outcome.kind == SettleRefusal(req, env, config)
    requires !duplicate && MintCallsSucceed(req, env, config) ==>
               (outcome.Minted? || outcome.MintUnconfirmed?)
               && (outcome.MintUnconfirmed? <==> FirstConfirmed(env.confirmations).None?)
    requires !duplicate && BurnCallsSucceed(req, env, config) && FirstConfirmed(env.confirmations).Some? ==>
               (outcome.Released? <==> UnlockPasses(env.unlock) && PayoutAccepted(env.payout))
    ensures !duplicate && PassesPrechecks(req, env) && !FullSuccess(req, env, config)
            && !((MintCallsSucceed(req, env, config) || BurnCallsSucceed(req, env, config))
                 && FirstConfirmed(env.confirmations).None?) ==>
              outcome == Rejected(SettleRefusal(req, env, config))
    ensures IsSettled(outcome) <==> !duplicate && PassesPrechecks(req, env) && FullSuccess(req, env, config)
  {
    if !duplicate {
      SettledExactlyOnSuccess(outcome, req, env, config);
    }
  }

  /** The handler's decision for a request, given whether its transaction id
      is already recorded: the pre-checks, the duplicate lookup, then the
      chosen direction. */
  method Dispatch(req: Request, env: Env, config: Config, duplicate: bool) returns (outcome: Outcome, calls: seq<Call>)
    ensures NoRecord(calls)
    ensures IsSettled(outcome) ==> !duplicate
    ensures req.httpMethod != "POST" ==> outcome == Rejected(MethodNotAllowed) && calls == []
    ensures req.httpMethod == "POST" && HasMissingParameter(req) ==> outcome == Rejected(MissingParameters) && calls == []
    // a recorded id is turned down after the ownership check and before any chain call
    ensures duplicate ==> outcome.Rejected? && ChecksAndLookupOnly(calls)
    ensures duplicate && req.httpMethod == "POST" && !HasMissingParameter(req) && SignaturePrecheckPasses(req, env) ==>
              outcome == Rejected(AlreadyProcessed)
    ensures LookupPrecedesChainCalls(calls, req.transactionHash)
    ensures req.swapOption == WflopToFlop && !IsFlopAddress(req.targetAddress) ==> NoChainCalls(calls)
    ensures req.swapOption != FlopToWflop && req.swapOption != WflopToFlop && req.httpMethod == "POST"
            && !HasMissingParameter(req) && !duplicate ==>
              outcome == Rejected(InvalidSwapOption)
    ensures outcome.Minted? || outcome.MintUnconfirmed? ==>
              req.swapOption == FlopToWflop
              && CheckDeposit(env.transaction, config.flopDepositAddress).Deposit?
              && outcome.mintedAmount == CheckDeposit(env.transaction, config.flopDepositAddress).units * WflopScale
    ensures outcome.Released? || outcome.BurnUnconfirmed? ==>
              req.swapOption == WflopToFlop && AuthorizedBurn(req, env, config) == Some(outcome.burnAmount)
    // a failed ownership check is refused before the lookup and any chain call
    ensures !PassesPrechecks(req, env) ==> outcome.Rejected? && OnlySignatureChecks(calls)
    ensures req.httpMethod == "POST" && !HasMissingParameter(req) && req.swapOption == FlopToWflop ==>
              (env.verifyMessage == VerifyUnreachable ==> outcome == Rejected(SignatureRpcFailed))
              && (env.verifyMessage == VerifyResult(false) ==> outcome == Rejected(SignatureNotVerified))
    ensures req.httpMethod == "POST" && !HasMissingParameter(req) && req.swapOption == WflopToFlop
            && env.recoverSigner(req.signMessageText, req.signature).None? ==>
              outcome == Rejected(InvalidSignature)
    ensures !duplicate && PassesPrechecks(req, env) && outcome.Rejected? ==> outcome.kind == SettleRefusal(req, env, config)
    // chain actions only as the checks allow; FLOP is paid out only for a new, checked request
    ensures ActionsAllowed(calls, req, env, config)
    ensures Payouts(calls) ==
              if !duplicate && PassesPrechecks(req, env) && req.swapOption == WflopToFlop then EarnedPayouts(req, env, config) else []
    ensures ChainActions(calls) == if !duplicate && PassesPrechecks(req, env) then EarnedActions(req, env, config) else []
    // a new, well-formed request whose foreign calls succeed settles or gets the 200 "not yet confirmed" reply
    ensures !duplicate && PassesPrechecks(req, env) && MintCallsSucceed(req, env, config) ==>
              (outcome.Minted? || outcome.MintUnconfirmed?)
              && (outcome.MintUnconfirmed? <==> FirstConfirmed(env.confirmations).None?)
    ensures !duplicate && PassesPrechecks(req, env) && BurnCallsSucceed(req, env, config)
            && FirstConfirmed(env.confirmations).None? ==>
              outcome == BurnUnconfirmed(req.transactionHash, env.burnTx.value, AuthorizedBurn(req, env, config).value)
    ensures !duplicate && PassesPrechecks(req, env) && BurnCallsSucceed(req, env, config)
            && FirstConfirmed(env.confirmations).Some? ==>
              (outcome.Released? <==> UnlockPasses(env.unlock) && PayoutAccepted(env.payout))
    // a 200 reply only after its calls succeeded, with the hashes they returned
    ensures ReportsSucceededCalls(outcome, req, env, config)
    // otherwise a new, well-formed request is refused
    ensures !duplicate && PassesPrechecks(req, env) && !FullSuccess(req, env, config)
            && !((MintCallsSucceed(req, env, config) || BurnCallsSucceed(req, env, config))
                 && FirstConfirmed(env.confirmations).None?) ==>
              outcome == Rejected(SettleRefusal(req, env, config))
    ensures IsSettled(outcome) <==> !duplicate && PassesPrechecks(req, env) && FullSuccess(req, env, config)
  {
    var rejection, precheck := Precheck(req, env);
    if rejection.Some? {
      PayoutsNone(precheck);
      JoinChainActions(precheck, []);
      return Rejected(rejection.value), precheck;
    }
    var admitted;
    outcome, admitted := Admit(req, env, config, duplicate);
    JoinActions(req, env, config, precheck, admitted);
    JoinLookup(precheck, admitted, req.transactionHash);
    JoinShape(precheck, admitted);
    JoinChainActions(precheck, admitted);
    AdmittedVerdict(outcome, req, env, config, duplicate);
    calls := precheck + admitted;
  }

  /** The API route with its collection of processed transaction ids. */
  class SwapHandler {
    const config: Config
    var processed: set<string>

    constructor (config: Config, processed: set<string>)
      ensures this.config == config && this.processed == processed
    {
      this.config := config;
      this.processed := processed;
    }

    method Handle(req: Request, env: Env) returns (resp: Response, calls: seq<Call>)
      modifies this
      ensures resp.status == StatusOf(resp.outcome)
      // the set grows by the request's id exactly on the two full-success paths
      ensures processed == if IsSettled(resp.outcome) then old(processed) + {req.transactionHash} else old(processed)
      ensures IsSettled(resp.outcome) ==>
                req.transactionHash !in old(processed) && calls != [] && calls[|calls| - 1] == RecordTxId(req.transactionHash)
      ensures resp.outcome.MintUnconfirmed? || resp.outcome.BurnUnconfirmed? ==>
                resp.status == 200 && processed == old(processed)
      ensures req.httpMethod != "POST" ==> resp == Reject(MethodNotAllowed) && calls == []
      ensures req.transactionHash in old(processed) ==>
                resp.outcome.Rejected? && ChecksAndLookupOnly(calls)
      ensures req.transactionHash in old(processed) && req.httpMethod == "POST" && !HasMissingParameter(req)
              && SignaturePrecheckPasses(req, env) ==>
                resp == Reject(AlreadyProcessed)
      ensures LookupPrecedesChainCalls(calls, req.transactionHash)
      ensures req.httpMethod == "POST" && HasMissingParameter(req) ==> resp == Reject(MissingParameters) && calls == []
      // a failed ownership check changes nothing and makes no call but the check itself
      ensures !PassesPrechecks(req, env) ==>
                !IsSettled(resp.outcome) && processed == old(processed) && OnlySignatureChecks(calls)
      ensures req.transactionHash !in old(processed) && PassesPrechecks(req, env) && resp.outcome.Rejected? ==>
                resp.outcome.kind == SettleRefusal(req, env, config)
      // chain actions only as the checks allow; FLOP is paid out only for a new, checked request
      ensures ActionsAllowed(calls, req, env, config)
      ensures Payouts(calls) ==
                if req.transactionHash !in old(processed) && PassesPrechecks(req, env) && req.swapOption == WflopToFlop
                then EarnedPayouts(req, env, config) else []
      ensures ChainActions(calls) ==
                if req.transactionHash !in old(processed) && PassesPrechecks(req, env) then EarnedActions(req, env, config) else []
      // the amounts the 200 reply reports
      ensures resp.outcome.Minted? || resp.outcome.MintUnconfirmed? ==>
                req.swapOption == FlopToWflop
                && CheckDeposit(env.transaction, config.flopDepositAddress).Deposit?
                && resp.outcome.mintedAmount == CheckDeposit(env.transaction, config.flopDepositAddress).units * WflopScale
      ensures resp.outcome.Released? || resp.outcome.BurnUnconfirmed? ==>
                req.swapOption == WflopToFlop && AuthorizedBurn(req, env, config) == Some(resp.outcome.burnAmount)
      // the ownership check's refusals
      ensures req.httpMethod == "POST" && !HasMissingParameter(req) && req.swapOption == FlopToWflop ==>
                (env.verifyMessage == VerifyUnreachable ==> resp == Reject(SignatureRpcFailed))
                && (env.verifyMessage == VerifyResult(false) ==> resp == Reject(SignatureNotVerified))
      ensures req.httpMethod == "POST" && !HasMissingParameter(req) && req.swapOption == WflopToFlop
              && env.recoverSigner(req.signMessageText, req.signature).None? ==>
                resp == Reject(InvalidSignature)
      ensures req.swapOption == WflopToFlop && !IsFlopAddress(req.targetAddress) ==> NoChainCalls(calls)
      // a new, well-formed request whose calls all succeed is recorded; one whose receipt never confirms is not
      ensures req.transactionHash !in old(processed) && PassesPrechecks(req, env)
              && FirstConfirmed(env.confirmations).Some?
              && (MintCallsSucceed(req, env, config)
                  || (BurnCallsSucceed(req, env, config) && UnlockPasses(env.unlock) && PayoutAccepted(env.payout))) ==>
                IsSettled(resp.outcome) && processed == old(processed) + {req.transactionHash}
      ensures req.transactionHash !in old(processed) && PassesPrechecks(req, env)
              && FirstConfirmed(env.confirmations).None?
              && (MintCallsSucceed(req, env, config) || BurnCallsSucceed(req, env, config)) ==>
                resp.status == 200 && processed == old(processed)
      // a 200 reply only after its calls succeeded, with the hashes they returned
      ensures ReportsSucceededCalls(resp.outcome, req, env, config)
      // so the id is recorded exactly for a new, well-formed request whose calls all succeed
      ensures processed != old(processed) <==>
                req.transactionHash !in old(processed) && PassesPrechecks(req, env) && FullSuccess(req, env, config)
    {
      var outcome;
      outcome, calls := Dispatch(req, env, config, req.transactionHash in processed);
      if IsSettled(outcome) {
        processed := processed + {req.transactionHash};
        assert req.transactionHash in processed - old(processed);
        LookupPrecedesAppend(calls, req.transactionHash, RecordTxId(req.transactionHash));
        QuietSuffix(calls, [RecordTxId(req.transactionHash)]);
        RecordKeepsActions(calls, req.transactionHash, req, env, config);
        assert ChainActions(calls + [RecordTxId(req.transactionHash)]) == ChainActions(calls) by {
          QuietCall(RecordTxId(req.transactionHash), calls);
        }
        calls := calls + [RecordTxId(req.transactionHash)];
      }
      resp := Response(StatusOf(outcome), outcome);
    }
  }
}
