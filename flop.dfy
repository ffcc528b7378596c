/** The FLOP node side of the bridge: the shape of its JSON-RPC replies as
    the handler reads them, and the choice of the deposit output. */
module Flop {
  import opened Wrappers
  import opened Addresses

  /** One entry of `gettransaction`'s `details`; `address` is "" where it is
      missing, and `amount` is the coin amount in 8-decimal minor units. */
  datatype Output = Output(address: string, amount: int)

  /** The `result` of `gettransaction`; `details` is None where it is missing
      or not an array. */
  datatype TxDetails = TxDetails(details: Option<seq<Output>>)

  /** `gettransaction`: the request threw, the HTTP status was not ok, the
      body was not JSON or carried an `error` (all thrown to the handler's
      catch), or its `result`, None where null. */
  datatype TxReply = TxRpcFailed | TxResult(result: Option<TxDetails>)

  /** `verifymessage`: the request threw, or the truthiness of its `result`. */
  datatype VerifyReply = VerifyUnreachable | VerifyResult(verified: bool)

  /** `walletpassphrase`: the request, the JSON parse or the read of a `null`
      body threw, no error, or an error with its code (None where the error
      object has no code). */
  datatype UnlockReply = UnlockUnreachable | UnlockOk | UnlockError(code: Option<int>)

  /** The error code the node gives when the wallet has no passphrase. */
  const WalletUnencrypted: int := -15

  /** The parsed body of `sendtoaddress`: whether it has an `error`, and its `result`. */
  datatype SendBody = SendBody(hasError: bool, result: Option<string>)

  /** `sendtoaddress`: the request threw, the body could not be parsed, the
      body was the JSON literal `null` (with the HTTP status), or the HTTP
      status with the parsed body, None where the body was empty text. */
  datatype SendReply =
    | SendUnreachable
    | SendUnreadable
    | SendNull(httpOk: bool)
    | SendResponse(httpOk: bool, body: Option<SendBody>)

  /** An output that pays the deposit address (compared case-insensitively) a positive amount. */
  predicate PaysDeposit(o: Output, depositAddress: string)
  {
    o.address != "" && SameAddress(o.address, depositAddress) && o.amount > 0
  }

  /** `outputs.find(...)`: the index of the first output that pays the deposit address. */
  function FindDeposit(outputs: seq<Output>, depositAddress: string): (r: Option<nat>)
    ensures r.Some? ==> r.value < |outputs| && PaysDeposit(outputs[r.value], depositAddress)
    ensures r.Some? ==> forall j :: 0 <= j < r.value ==> !PaysDeposit(outputs[j], depositAddress)
    ensures r.None? <==> forall j :: 0 <= j < |outputs| ==> !PaysDeposit(outputs[j], depositAddress)
  {
    if outputs == [] then None
    else if PaysDeposit(outputs[0], depositAddress) then Some(0)
    else match FindDeposit(outputs[1..], depositAddress)
      case None => None
      case Some(k) => Some(k + 1)
  }

  /** Qualifying outputs after the first are neither summed nor chosen. */
  lemma {:induction false} FindDepositIgnoresLater(outputs: seq<Output>, later: seq<Output>, depositAddress: string)
    requires FindDeposit(outputs, depositAddress).Some?
    ensures FindDeposit(outputs + later, depositAddress) == FindDeposit(outputs, depositAddress)
  {
    assert (outputs + later)[0] == outputs[0];
    if !PaysDeposit(outputs[0], depositAddress) {
      assert (outputs + later)[1..] == outputs[1..] + later;
      FindDepositIgnoresLater(outputs[1..], later, depositAddress);
    }
  }

  /** A transaction with only outputs to other addresses has no deposit, whatever their amounts. */
  lemma NoDepositToOtherAddresses(outputs: seq<Output>, depositAddress: string)
    requires forall j :: 0 <= j < |outputs| ==> !SameAddress(outputs[j].address, depositAddress)
    ensures FindDeposit(outputs, depositAddress).None?
  {
  }
}
