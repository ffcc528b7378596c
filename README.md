# FlopSwap bridge settlement, modelled in Dafny

FlopSwap is a bridge between the FLOP coin, a Dogecoin fork, and WFLOP, an ERC-20 token on Polygon. One API route, `pages/api/bridge-swap.js`, settles swaps in both directions.

**FLOP_TO_WFLOP.** The route:
- checks the user's signed message;
- rejects a transaction id it has already processed;
- looks up the FLOP deposit transaction;
- takes the first output that pays the deposit address;
- converts its 8-decimal amount to 18 decimals;
- mints WFLOP at the network gas price plus 10%;
- waits for the mint's receipt.

**WFLOP_TO_FLOP.** The route:
- checks the FLOP target address;
- reads the Polygon receipt of the user's transfer;
- finds the ERC-20 Transfer log paying the WFLOP deposit address;
- checks that the signer of the proof is the sender of that transfer;
- checks that the bridge wallet is the deposit address and that its balance covers the burn;
- burns, using the estimated gas limit or 200000 when estimation fails;
- waits for the burn's receipt;
- unlocks the FLOP wallet, where error code -15 ("wallet not encrypted") is tolerated;
- sends the coins.

Only the two fully successful paths record the transaction id.

The model has six modules, one file each:

- `Wrappers` (wrappers.dfy) holds `Option`.
- `Decimal` (decimal.dfy) covers:
  - decimal strings;
  - `toFixed(8)` for exact 8-decimal amounts;
  - the trailing-zero strip `/\.?0+$/`;
  - ethers' `parseUnits` for unsigned strings;
  - the 18→8-decimal payout amount.
- `Addresses` (addresses.dfy) covers:
  - ASCII lower-casing and case-insensitive comparison;
  - the FLOP address pattern `^F[a-zA-Z0-9]{33}$`;
  - the address held in a 32-byte log topic.
- `Polygon` (polygon.dfy) covers:
  - receipts and logs;
  - the bounded receipt poller (a `while` loop);
  - the Transfer-log scan (a loop with `break`);
  - the gas markup `p*110/100`.
- `Flop` (flop.dfy) covers:
  - the FLOP node's JSON-RPC replies as the handler reads them;
  - the first-match choice of the deposit output.
- `Bridge` (bridge.dfy) holds the handler.

**How the handler is modelled.** Every foreign call is an entry of an `Env` value:
- the two ethers helpers `verifyMessage` and `isAddress` are functions;
- every other call has a tagged reply, with one variant per way the call can end (reply, null, throw).

The read-only steps are methods returning an `Outcome` and the trace of `Call`s made, in order. Each step's `ensures` says:
- which checks precede which side effects;
- what was minted or burned and with which gas settings: `ChainActions(calls)`, the mints, burns, unlocks and sends of the trace in order, equals a reference sequence. From `SwapFlopToWflop` and `BurnAndRelease` up to `Handle` that sequence is built from `EarnedMint`, `BurnActions` and, at the handler's level, `EarnedActions`;
- which error each oracle failure yields;
- which outcome a request reaches when every call succeeds, and when the receipt never confirms.

`SwapHandler` is a class holding the processed-id set. Its `Handle` method updates the set and ends the trace with the record call.

## Model

| member | source | states |
|---|---|---|
| Polygon.PollTransactionReceipt | pages/api/bridge-swap.js:51-66 | the loop returns exactly the first attempt whose receipt is non-null with a block hash other than "" and "0x0" (the test at line 60), skipping errors and nulls, and None when the attempts run out |
| Polygon.FirstConfirmed | pages/api/bridge-swap.js:60-62 | a returned receipt is confirmed and comes from one of the attempts |
| Polygon.FirstConfirmedAt | pages/api/bridge-swap.js:53-62 | when attempt k is the first confirmed one (block hash neither empty nor "0x0", the test at line 60), the poller yields attempt k's receipt |
| Polygon.FirstConfirmedNone | pages/api/bridge-swap.js:53-65 | the poller times out if and only if no attempt is confirmed by the test at line 60 |
| Polygon.Classify | pages/api/bridge-swap.js:237-242 | a log matters exactly when it has the Transfer topic and either too few topics or the deposit address as its indexed recipient; it is the burn transfer exactly when it matters, has at least three topics and its data reads as a number; otherwise the scan throws on it. The two clauses are the loop's decision for one log; what the scan as a whole means is stated by `BurnEvidenceAt`, `BurnEvidenceMalformedAt`, `BurnEvidenceNone` and `BurnEvidenceIgnoresLater` |
| Polygon.BurnEvidence | pages/api/bridge-swap.js:237-246 | a found burn's sender is "0x" followed by lower-cased text; a burn or a failure needs at least one log |
| Polygon.ScanBurnLogs | pages/api/bridge-swap.js:233-247 | the log loop with `break` computes the burn evidence of the receipt: the amount and lower-cased sender of the first Transfer log to the deposit address, none, or the failure that a short topic list or unreadable data (`BigNumber.from` throwing) raises |
| Polygon.BurnEvidenceAt | pages/api/bridge-swap.js:237-245 | when log k is the first relevant log and is a transfer to the deposit address, its data is the amount and its topics[1] address is the sender |
| Polygon.BurnEvidenceMalformedAt | pages/api/bridge-swap.js:237-242 | when log k is the first relevant log and is malformed (too few topics, or data `BigNumber.from` refuses), the scan fails, which the catch at lines 361-363 answers with 500 |
| Polygon.BurnEvidenceNone | pages/api/bridge-swap.js:237-251 | no transfer is found if and only if every log is unrelated: wrong topic, or a recipient other than the deposit address |
| Polygon.BurnEvidenceIgnoresLater | pages/api/bridge-swap.js:244 | once a transfer is found, appending later logs changes nothing |
| Polygon.TransferToDepositIsBurn | pages/api/bridge-swap.js:238-243 | a standard ERC-20 Transfer log whose indexed recipient is the deposit address yields its amount and the lower-cased sender |
| Polygon.AdjustGasPrice | pages/api/bridge-swap.js:188 | the marked-up price is at least the network price and is floor(p·110/100) |
| Addresses.IsFlopAddress | pages/api/bridge-swap.js:216 | accepted exactly when the string is 34 characters long, starts with 'F' and continues with ASCII letters and digits |
| Addresses.AlphanumericRunIff | pages/api/bridge-swap.js:216 | the matcher for `[a-zA-Z0-9]{n}$` accepts exactly n alphanumeric characters |
| Addresses.Lower | pages/api/bridge-swap.js:167 | lower-casing keeps the length |
| Addresses.LowerSpec | pages/api/bridge-swap.js:167 | lower-casing turns each ASCII capital into its small letter, keeps every other character, and leaves no capital behind |
| Addresses.TopicAddress | pages/api/bridge-swap.js:239 | the address read from a topic is "0x" and the lower-cased text after position 26, 24 characters shorter than the topic, and already lower-case |
| Addresses.TopicAddressOfAddressTopic | pages/api/bridge-swap.js:239 | `"0x" + topic.slice(26).toLowerCase()` recovers the lower-cased address from its 32-byte topic encoding |
| Addresses.LowerAppend | pages/api/bridge-swap.js:239 | lower-casing distributes over concatenation |
| Flop.FindDeposit | pages/api/bridge-swap.js:165-169 | the chosen output is the first one paying the deposit address (compared case-insensitively) a positive amount; none is chosen if and only if no output qualifies |
| Flop.FindDepositIgnoresLater | pages/api/bridge-swap.js:165-169 | later qualifying outputs neither change the choice nor add to it |
| Flop.NoDepositToOtherAddresses | pages/api/bridge-swap.js:165-172 | outputs to other addresses never count as the deposit, whatever their amounts |
| Decimal.DecimalString | pages/api/bridge-swap.js:178-179 | the integer part of `toFixed` is a non-empty digit string without a dot and without a leading zero that denotes the integer |
| Decimal.Fixed | pages/api/bridge-swap.js:178-179 | the fraction of `toFixed(8)` has exactly 8 digits and denotes the remainder |
| Decimal.FixedParts | pages/api/bridge-swap.js:178-179 | `toFixed(8)` of u is the integer part's decimal string, a dot, and exactly 8 digits denoting the remainder, with the count of its trailing zeros |
| Decimal.TrimTrailingZerosSpec | pages/api/bridge-swap.js:180 | `replace(/\.?0+$/, "")` keeps a prefix; it changes the string exactly when it ends in '0'; it removes only zeros led by at most one dot, and the longest such run |
| Decimal.ParseUnits | pages/api/bridge-swap.js:181 | a parsed string is non-empty, not a lone dot and made of digits and dots; a plain digit string W parses to W·10^decimals |
| Decimal.IndexOf | pages/api/bridge-swap.js:181 | the dot `parseUnits` splits at is the first one, or there is none |
| Decimal.TrimDotted | pages/api/bridge-swap.js:180 | the strip removes exactly the trailing zeros of the fraction, and the dot too when the fraction is all zeros |
| Decimal.TrimToFixed | pages/api/bridge-swap.js:178-180 | the stripped 8-decimal string is the integer part alone, or the integer part and the fraction up to its last non-zero digit |
| Decimal.ParseToFixed | pages/api/bridge-swap.js:178-181 | the 8-decimal string of u, parsed at d ≥ 8 decimals, is u·10^(d-8) |
| Decimal.ParseTrimmedFixed | pages/api/bridge-swap.js:178-181 | the stripped string of u, parsed at d ≥ 8 decimals, is also u·10^(d-8) |
| Decimal.TrimPreservesValue | pages/api/bridge-swap.js:180 | stripping trailing zeros does not change the parsed value |
| Decimal.MintAmountExact | pages/api/bridge-swap.js:177-181 | the amount minted for a deposit of u minor units at 8 decimals is exactly u·10^10 at 18 decimals |
| Decimal.WflopAmount | pages/api/bridge-swap.js:177-181 | the conversion the mint uses always succeeds and yields u·10^10 |
| Decimal.DepositScenarioFixed | pages/api/bridge-swap.js:178-179 | 150 FLOP prints as "150.00000000" |
| Decimal.DepositScenarioTrimmed | pages/api/bridge-swap.js:180 | "150.00000000" strips to "150" |
| Decimal.DepositScenarioMinted | pages/api/bridge-swap.js:181 | 150 FLOP mints 150000000000000000000 WFLOP minor units |
| Decimal.CoinUnits | pages/api/bridge-swap.js:317-319 | the 8-decimal payout for b burned minor units is b truncated to 8 decimals |
| Decimal.PayoutNeverExceedsBurn | pages/api/bridge-swap.js:317-319 | the printed payout parses back to at most the burned amount and less than 10^-8 FLOP below it |
| Decimal.PayoutScenario | pages/api/bridge-swap.js:319 | a burn of 2500·10^18 minor units pays "2500.00000000" |
| Decimal.RoundedCoinUnits | pages/api/bridge-swap.js:319 | the handler's conversion, idealised, rounds the burned amount to the nearest 8-decimal value, half up |
| Decimal.RoundedCoinUnitsOverpays | pages/api/bridge-swap.js:319 | the handler's rounding conversion pays 2.00000000 FLOP for 1.999999999999999999 WFLOP, more than was burned |
| Bridge.StatusOf | pages/api/bridge-swap.js:68-363 | status 200 exactly for the non-rejected outcomes; every status is 200, 400, 405 or 500 |
| Bridge.CheckDeposit | pages/api/bridge-swap.js:146-172 | a deposit is found only with a positive amount; RPC failure, a null result, missing details and no matching output are the refusals |
| Bridge.Precheck | pages/api/bridge-swap.js:69-112 | the method, field and signature checks pass exactly when the request is a POST with all four fields and, for the chosen direction, a recoverable or node-verified signature; each failure gives its own refusal and only signature checks are made |
| Bridge.MintDeposit | pages/api/bridge-swap.js:184-201 | the trace is exactly `MintTrace`: the gas price read, then the mint to the target of units·10^10 at the marked-up gas price, then the receipt wait once the mint has a hash; failure of the gas price or the mint call is the only refusal, and the poller decides between confirmed and unconfirmed |
| Bridge.MintTraceActions | pages/api/bridge-swap.js:184-201 | a mint's trace holds one chain action, the mint of units·10^10 to the target at the marked-up gas price, once a gas price is read, and none otherwise |
| Bridge.MintFromTransaction | pages/api/bridge-swap.js:130-212 | a missing or unusable deposit is refused with its kind after only the transaction lookup; past a found deposit the trace is exactly the lookup followed by `MintTrace` for the found deposit, and every refusal is an unexpected error; no burn, unlock or send is made; a mint is for the found deposit ×10^10 to the target at the marked-up gas price; when gas price and mint succeed the mint ends Minted or MintUnconfirmed as the poller decides |
| Bridge.DepositTraceActions | pages/api/bridge-swap.js:123-201 | behind the address check, the transaction lookup and a mint's trace make exactly the mint `DepositMint` names for the found deposit, and a refused deposit makes none |
| Bridge.SwapFlopToWflop | pages/api/bridge-swap.js:123-212 | the Polygon address is checked first, then the deposit; the chain actions are exactly `EarnedMint`: one mint of the found deposit ×10^10 to a valid target at the marked-up gas price, made once a gas price is read, and no burn, unlock or send; on success the trace is exactly address check, transaction lookup, gas price, mint, receipt wait; confirmed and unconfirmed follow the poller; every refusal is `MintRefusal`: bad address, the deposit check's kind, or a failing gas or mint call |
| Bridge.AuthorizedBurn | pages/api/bridge-swap.js:216-267 | an authorised amount needs a FLOP target, a receipt, a transfer to the deposit address of exactly that amount whose sender is the recovered signer, a bridge wallet equal to the deposit address, and a balance covering the amount |
| Bridge.VerifyBurn | pages/api/bridge-swap.js:213-267 | the burn is authorised exactly when the target is a FLOP address, the receipt exists, the signer is recovered and equals the sender of the first transfer to the deposit address, the bridge wallet is the deposit address and the balance covers the amount; each refusal is named: bad address, receipt missing (400) or throwing (500), signer not recovered, unreadable logs (500), no transfer, signer mismatch, wallet mismatch, balance throwing (500) or short, and every refusal is `BurnRefusal`, the first failing check in source order; only reads are made |
| Bridge.BurnAndConfirm | pages/api/bridge-swap.js:269-290 | the trace is exact: the gas price read, then the gas estimate, then the single burn at the marked-up gas price with the estimated gas limit, or 200000 when estimation throws (lines 271-276), then the receipt wait once the burn has a hash; its one chain action is that burn |
| Bridge.PayoutAccepted | pages/api/bridge-swap.js:338-343 | an accepted payout has HTTP success; with an empty body only the HTTP status decides; an error body is never accepted |
| Bridge.ReleaseCoins | pages/api/bridge-swap.js:292-346 | coins are sent only after an unlock that succeeded or failed with code -15 (the test at line 310), for the truncated 8-decimal amount; the payout succeeds exactly when the node answers HTTP success without an error; each failure is named: unreachable or refused unlock, unreachable node (500), unreadable body, HTTP failure or error body, and a `null` body after HTTP success, whose `error` read throws into the catch at lines 361-363 (500); every failure is `ReleaseRefusal` of the replies |
| Bridge.ReleaseBurned | pages/api/bridge-swap.js:292-357 | after a confirmed burn: unlock, then exactly one send, to the target for the truncated amount, only if the unlock passes, and every call is a chain action; every refusal is `ReleaseRefusal`; a failed unlock is named unreachable or refused; the request is released exactly when unlock and payout succeed, reporting the burn, its receipt and the node's transaction id |
| Bridge.BurnAndRelease | pages/api/bridge-swap.js:269-357 | the chain actions are exactly `BurnActions`: one burn of the amount with the gas policy's price and limit, made once a gas price is read, then, only after the burn has a hash and a confirmed receipt, one unlock, then, once it passes, one send to the target of the truncated amount; a failing gas price or burn call is an unexpected error; a burn that never confirms gets the 200 "not yet confirmed" reply and no unlock; a confirmed burn is released exactly when the unlock passes and the node accepts the payout; any other refusal is `ReleaseRefusal` |
| Bridge.SwapWflopToFlop | pages/api/bridge-swap.js:213-357 | the chain actions are exactly `BurnActions` of the authorised amount (one burn with the gas policy, then the unlock after its confirmation, then the earned send), and none when the burn is refused; the payouts are exactly `EarnedPayouts`; an unlock error other than -15 is a failure; a release carries the burn, its receipt and the node's transaction id; for an authorised burn, failing gas or burn calls give 500, an unconfirmed burn gives the 200 "not yet confirmed" reply, and a confirmed one is released exactly when unlock and payout succeed; every refusal is `WflopRefusal`: the pre-burn check's kind, a failing gas or burn call, or the payout's failure |
| Bridge.Settle | pages/api/bridge-swap.js:122-360 | dispatch on the swap option; an unknown option is refused with no further calls; the chain actions are exactly `EarnedActions` of the request, so at most one mint or one burn is made, with the deposit's amount or the authorised one and the gas policy, and the burn precedes the unlock and the send; mint amounts and burn authorisation carry through to the outcome; when every call succeeds the mint ends Minted or MintUnconfirmed as the poller decides, and the burn ends BurnUnconfirmed on timeout or Released exactly when unlock and payout succeed; every refusal is `SettleRefusal`, the direction's refusal kind; conversely (`ReportsSucceededCalls`) a Minted or MintUnconfirmed outcome only follows a valid target, a deposit, a gas price and a mint hash, with that hash and, when Minted, the first confirmed receipt; Released only follows an authorised burn with its hash and confirmed receipt, a passing unlock and an accepted send, with the send's result as the FLOP hash; BurnUnconfirmed only follows a burn whose receipt never confirmed, with the request's and the burn's hashes (lines 204-211 and 348-356); `ActionsAllowed` and the payouts being exactly `EarnedPayouts` follow as well |
| Bridge.EarnedActionsOrder | pages/api/bridge-swap.js:184-357 | the actions a request earns are at most three: at most one mint or burn and always first, an unlock only right after the burn, a send only right after the unlock |
| Bridge.EarnedActionsPayouts | pages/api/bridge-swap.js:292-346 | the sends among the earned actions are exactly the earned payouts of a WFLOP→FLOP request, and a FLOP→WFLOP request earns none |
| Bridge.LookupThenAnything | pages/api/bridge-swap.js:114-122 | calls placed after the duplicate lookup, behind signature checks only, are all preceded by it |
| Bridge.LookupPrecedesAppend | pages/api/bridge-swap.js:204 | appending the final record call keeps the lookup before every chain call |
| Bridge.Admit | pages/api/bridge-swap.js:114-360 | the duplicate lookup comes first; a recorded id is refused with `AlreadyProcessed` after the lookup alone and makes no chain action; for a new id every chain call follows the lookup, the chain actions are exactly `EarnedActions`, the chosen direction's refusals are `SettleRefusal`, and when every call succeeds the request settles or gets the 200 "not yet confirmed" reply; every 200 outcome reports only succeeded calls and their hashes and receipt (`ReportsSucceededCalls`) |
| Bridge.Dispatch | pages/api/bridge-swap.js:68-360 | a request failing the method, field or signature check is refused with only signature checks made, each with its own kind; a recorded id is refused with only signature checks and the lookup made; every chain call follows the lookup; only a new id can settle; the chain actions are exactly `EarnedActions` for a new request that passed the pre-checks and none otherwise, and the payouts likewise `EarnedPayouts`; a new request that passes the pre-checks and whose calls succeed settles, or gets the 200 "not yet confirmed" reply when its receipt never confirms, and otherwise is refused with `SettleRefusal`. A 200 outcome reports only succeeded calls and their hashes and receipt (`ReportsSucceededCalls`), and the outcome settles exactly when the id is new, the pre-checks pass and every call succeeds with a confirmed receipt (`FullSuccess`). The reported mint and burn amounts are the deposit's ×10^10 and the authorised one |
| Bridge.SwapHandler.Handle | pages/api/bridge-swap.js:68-363 | a missing field is refused with no call; a failed signature check answers 500 when the node is unreachable and 400 when it is not verified or the signer is not recovered (lines 79-112); a request failing the pre-checks is never settled, leaves the set unchanged and makes only signature checks; an invalid FLOP target makes no chain call; the processed set grows by the request's id exactly when the id is new, the pre-checks pass and every call of the direction succeeds with a confirmed receipt, the unlock and the send included (`FullSuccess`, lines 204 and 348), and is unchanged otherwise, including the 200 "not yet confirmed" replies; the chain actions are exactly `EarnedActions` for a new request that passed the pre-checks and none otherwise, the payouts likewise `EarnedPayouts`; the 200 reply's minted amount is the deposit ×10^10 (line 209) and its burned amount the authorised one (line 354); every 200 reply carries only the hashes and receipt its calls returned (`ReportsSucceededCalls`, lines 206-211 and 350-356); a new, well-formed request whose calls all succeed is recorded, and its other refusals are `SettleRefusal`; the record call comes last |

## Left out

- The MongoDB connection and its cached handle are not modelled. The `processedTxIds` collection is the `processed` set; a failing `findOne` or `insertOne` is not modelled.
- The HTTP transport to the FLOP node and the ethers provider, wallet and contract are replaced by the replies in `Env`. Each reply has one variant per way the call can end.
- `verifyMessage`, `isAddress` and the keccak of the Transfer signature are not computed. The first two are functions in `Env`; the topic is the well-known constant.
- The poller's clock (`Date.now`, `setTimeout`, the 60-second timeout) is not modelled. The finite sequence of attempts stands for it.
- Floating point is not modelled. An output's `amount` is taken as an exact number of 8-decimal minor units, and `toFixed(8)` is modelled for such exact values only. The idealisation holds below 2^26 coins (about 6.7·10^7 coins, 6.7·10^15 minor units): there neighbouring doubles are less than 10^-8 apart, so the double nearest an 8-decimal amount is close enough for `toFixed(8)` to print that amount back. From 2^26 coins on, the source can work on a different amount.
- Decimal.WflopAmount: succeeds for every amount. In the source, `toFixed` prints exponential notation from 10^21 coins, `parseUnits` then throws, and the catch at pages/api/bridge-swap.js:361-363 answers 500; the model has no such refusal.
- Bridge.ReleaseCoins: sends the truncated `CoinUnits` amount, not the float rounding of pages/api/bridge-swap.js:319 (see "## Findings"); the as-written conversion is `Decimal.RoundedCoinUnits`.
- Decimal.RoundedCoinUnits: rounds the decimal value half up; JavaScript's binary `Number` rounding, on which the payout conversion relies, is not modelled.
- Decimal.ParseUnits: reads unsigned decimal strings only; the sign handling and the error messages of ethers' `parseUnits` are not modelled, since the handler only passes it `toFixed` output.
- The race between the duplicate check and the inserts under concurrent requests is not modelled; the model is sequential.
- Request fields of a non-string type, and JSON bodies that are not objects, are not modelled; a missing field is the empty string.
- `toLowerCase` is modelled for ASCII letters only.
- The receipt logs' emitting contract is not part of `Log`, because the handler never reads it. A log's data is the number `BigNumber.from` reads, or None where it throws; which hex strings it accepts is not modelled.
- Environment-variable loading becomes `Config`.
- The network fee and the wallet's passphrase timeout are not modelled.
- The UI (pages/index.js, components/BridgeCard.js, components/Navbar.js, pages/_app.js) is not part of this model.

## Findings

| source | as written | input that shows it | evidently intended | confidence | as-written member | corrected member |
|---|---|---|---|---|---|---|
| pages/api/bridge-swap.js:319 | `Number(formatUnits(burnAmount, 18)).toFixed(8)` rounds the burned amount to the nearest 8-decimal value | burnAmount = 1999999999999999999 (1.999999999999999999 WFLOP) pays "2.00000000" FLOP | pay out the burned amount truncated to 8 decimals, never more than was burned | not executed | Decimal.RoundedCoinUnitsOverpays | Decimal.PayoutNeverExceedsBurn |

The corrected conversion `Decimal.CoinUnits` is what `Bridge.ReleaseCoins` sends.

Two further observations, both modelled as written:
- **The FLOP_TO_WFLOP signature is not tied to the deposit.** The checked signer (pages/api/bridge-swap.js:94) is never compared with the deposit transaction's sender.
- **The burn log's emitting contract is not checked.** The scan (pages/api/bridge-swap.js:237-247) accepts a Transfer log from any contract.
