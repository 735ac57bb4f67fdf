# Pay-per-call gate of the Stacks AI gateway, in Dafny

This project models the payment gate of the Stacks AI gateway. The gate uses
HTTP 402 "Payment Required" (section 15.5.3 of RFC 9110) as a challenge and
response protocol:

- A request without a `payment-signature` header is answered 402 with a priced
  challenge. The challenge names the amount, the recipient, the resource and an
  expiry, and carries a freshly minted nonce.
- A request with the header is checked in a fixed order: nonce not used, nonce
  not expired, challenge not expired, transaction id present, ledger
  transaction confirmed, amount sufficient, recipient right. The first failing
  check gives a 403 with its reason.
- Only a proof that passes every check marks its nonce used. That request goes
  on to the protected handler with its payment record.

Files and modules:

- `wrappers.dfy` (`Wrappers`): `Option` and `Result`.
- `js_numbers.dfy` (`JsNumbers`): the JavaScript `parseInt` (no radix),
  `toString` of integers, and `<`, which is false whenever NaN is involved.
  The gate relies on all three when it compares amounts.
- `x402_types.dfy` (`X402Types`): challenge, proof, payment record and verdict.
- `pricing.dfy` (`Pricing`): the static price table and its lookups.
- `nonce_manager.dfy` (`NonceStore`): the in-process nonce table.
  - It is a class `NonceManager` whose `inMemoryStore` map field its methods
    update.
  - Specification functions on the map (`UsedIn`, `ValidIn`, `Generated`,
    `MarkedUsed`, `CleanedUp`) state what each method does.
  - Lemmas state the lifecycle: validity window, idempotent marking, cleanup
    boundary, and used-stays-used.
- `payment_verifier.dfy` (`PaymentVerifier`): how a fetched ledger transaction
  is classified. It also holds the polling loop `WaitForConfirmation`, run
  against an abstract clock.
- `x402_middleware.dfy` (`X402Middleware`):
  - the check chain as a pure verdict function, `PaymentVerdict`;
  - the imperative `VerifyPayment` and `RequirePayment`, which run on the nonce
    store and are proved equal to the verdict function and to its one state
    change;
  - the lemmas about the protocol.

JavaScript truthiness is modelled where the code relies on it:

- an empty header counts as absent;
- an empty transaction id counts as missing;
- an `expiresAt` of 0 skips the expiry check;
- an empty ledger error falls back to the generic reason.

- Amount and recipient are compared with the requirements embedded in the
  client's proof. They are not compared with the price table or the configured
  recipient. `RewrittenChallengeAdmitted` and `UnparsableAmountSkipsCheck`
  state what follows from this.
- The model type passed to the verification is never used.
- The code's fallback reason "Transaction not found or pending" is never
  produced, because every verifier failure carries a non-empty error
  (`FallbackReasonUnreachable`).
- The challenge is built in a promise that the handler returns without
  awaiting, so the error an unknown model throws escapes the handler's own
  try block. `RequirePayment` answers `Escaped` with that error, after the
  fresh nonce was stored. The handler's catch, which answers 500 "Payment
  processing error", is reached by nothing the model covers.

## Model

| member | source | states |
|---|---|---|
| `Pricing.GetPrice` | packages/gateway/src/config/pricing.ts:31-37 | succeeds exactly on the keys gpt4, claude, gpt-3.5 and gemini, always with a positive base price; any other key fails with "Unknown model: " followed by the key; as a function it has no side effects and one answer per key |
| `Pricing.GetAllPricing` | packages/gateway/src/config/pricing.ts:39-41 | the table has exactly the four keys, each entry is what `GetPrice` returns for it, and `GetPrice` fails on every key outside it |
| `Pricing.PriceList` | packages/gateway/src/config/pricing.ts:1-26 | gpt4 costs 100000, claude 120000, gpt-3.5 20000 and gemini 50000 micro-units |
| `JsNumbers.DigitPrefix` | packages/gateway/src/middleware/x402.middleware.ts:147 | the digits `parseInt` reads are the longest run of digits at the start of the text |
| `JsNumbers.DecimalString` | packages/gateway/src/middleware/x402.middleware.ts:77 | `toString` of a natural number is a non-empty numeral with no leading zero whose digits have exactly that value |
| `JsNumbers.ParseIntOfToString` | packages/gateway/src/middleware/x402.middleware.ts:77 | `parseInt` of the decimal text of any integer gives that integer back |
| `JsNumbers.NoDigitsIsNaN` | packages/gateway/src/middleware/x402.middleware.ts:147 | text with no decimal digit, such as "abc", parses to NaN |
| `NonceStore.MarkedUsed` | packages/gateway/src/services/cache/nonce-manager.ts:104-107 | marking keeps the same keys and every timestamp; afterwards exactly the marked nonce and the previously used ones are used |
| `NonceStore.CleanedUp` | packages/gateway/src/services/cache/nonce-manager.ts:115-120 | cleanup keeps exactly the entries not older than the lifetime, each unchanged |
| `NonceStore.NonceManager.Generate` | packages/gateway/src/services/cache/nonce-manager.ts:36-54 | returns the supplied nonce and stores it as created now and unused, with every other entry as before |
| `NonceStore.NonceManager.IsUsed` | packages/gateway/src/services/cache/nonce-manager.ts:69-70 | reports the stored flag, and used for a nonce the store does not hold (fail closed) |
| `NonceStore.NonceManager.IsValid` | packages/gateway/src/services/cache/nonce-manager.ts:83-87 | false for an unknown nonce, otherwise true exactly when it is younger than 300000 ms |
| `NonceStore.NonceManager.MarkUsed` | packages/gateway/src/services/cache/nonce-manager.ts:104-107 | the new store is the old one with that nonce marked used, or unchanged when it is absent |
| `NonceStore.NonceManager.Cleanup` | packages/gateway/src/services/cache/nonce-manager.ts:115-120 | the loop leaves exactly the entries that are not stale, unchanged |
| `NonceStore.ValidityWindow` | packages/gateway/src/services/cache/nonce-manager.ts:83-87 | a nonce generated at t is unused and valid at t, and valid at a later time exactly while it is before t + 300000 |
| `NonceStore.GenerateFresh` | packages/gateway/src/services/cache/nonce-manager.ts:51 | generating a fresh nonce adds exactly that key and leaves every other entry as it was |
| `NonceStore.UsedAfterMark` | packages/gateway/src/services/cache/nonce-manager.ts:104-107 | after marking, the nonce reads as used, whether or not it was present |
| `NonceStore.MarkUsedIdempotent` | packages/gateway/src/services/cache/nonce-manager.ts:104-107 | marking twice gives the same store as marking once |
| `NonceStore.BoundaryAge` | packages/gateway/src/services/cache/nonce-manager.ts:86-87 | an entry exactly 300000 ms old is invalid (strict `<`) yet survives cleanup (strict `>`) |
| `NonceStore.CleanupKeepsValid` | packages/gateway/src/services/cache/nonce-manager.ts:115-120 | cleanup changes no nonce's validity and never makes a used nonce read as unused |
| `NonceStore.UsedStaysUsed` | packages/gateway/src/services/cache/nonce-manager.ts:36-120 | once an issued nonce reads as used, it reads as used after any sequence of generate, mark and cleanup operations that only generates new nonces |
| `PaymentVerifier.VerifyTransaction` | packages/gateway/src/services/stacks/payment-verifier.ts:30-68 | succeeds exactly for a found transaction with status "success", type "token_transfer" and transfer details; its amount is the parsed transfer amount, and recipient, sender, block time and height are copied; every failure carries a non-empty error |
| `PaymentVerifier.FailureReasons` | packages/gateway/src/services/stacks/payment-verifier.ts:35-47 | a failed lookup gives "Failed to fetch transaction"; a non-success status s gives "Transaction status: " + s and takes precedence over the type check; a wrong type gives "Not a token transfer transaction" |
| `PaymentVerifier.PollTimeMonotone` | packages/gateway/src/services/stacks/payment-verifier.ts:74-82 | every later poll happens at least one 5000 ms interval per round after an earlier one |
| `PaymentVerifier.WaitForConfirmation` | packages/gateway/src/services/stacks/payment-verifier.ts:71-85 | returns true exactly when some poll started within the time budget (60000 ms unless given) saw the transaction confirmed, and false once the budget is exhausted without one |
| `X402Middleware.PaymentVerdict` | packages/gateway/src/middleware/x402.middleware.ts:106-178 | a proof is admitted exactly when it is admissible by every check, with no regard to order; the admitted payment carries the transaction id and the ledger's amount, sender and time; every rejection has a non-empty reason |
| `X402Middleware.StoreAfter` | packages/gateway/src/middleware/x402.middleware.ts:108-162 | a rejected proof leaves the nonce store unchanged |
| `X402Middleware.VerifyPayment` | packages/gateway/src/middleware/x402.middleware.ts:98-186 | returns the verdict on the decoded header, or "Invalid payment signature format" when it does not decode; the store afterwards has the nonce marked only when the proof was admitted |
| `X402Middleware.RequirePayment` | packages/gateway/src/middleware/x402.middleware.ts:35-59 | without a header: stores a fresh nonce, then answers 402 with the challenge, or for an unknown model lets the error "Unknown model: " followed by the key escape the handler unanswered; with one: answers 403 with the reason, or passes the payment on, and changes the store only on admission |
| `X402Middleware.ChallengeFields` | packages/gateway/src/middleware/x402.middleware.ts:67-82 | the challenge has the decimal base price as amount, "/v1/prompt/" + model as resource, "stacks:" + network (default testnet) as network, now + 300000 as expiry, the minted nonce and the configured recipient |
| `X402Middleware.ChallengeAmountRoundTrip` | packages/gateway/src/middleware/x402.middleware.ts:77 | parsing the challenge's amount as the gate does gives back the base price it was built from |
| `X402Middleware.CheckOrder` | packages/gateway/src/middleware/x402.middleware.ts:108-160 | the checks run in the order used nonce, expired nonce, expired challenge, missing transaction id, ledger failure, underpayment, wrong recipient; the first that fails gives the reason |
| `X402Middleware.ReplayReasonIsDistinct` | packages/gateway/src/middleware/x402.middleware.ts:108-160 | the replay reason differs from each of the other six fixed reasons |
| `X402Middleware.GateReasonsAreDistinct` | packages/gateway/src/middleware/x402.middleware.ts:108-160 | the gate's fixed rejection reasons, the format rejection included, are pairwise different |
| `X402Middleware.FixedReasonsAreNotUnderpayment` | packages/gateway/src/middleware/x402.middleware.ts:108-160 | no fixed rejection reason of the gate starts like an underpayment reason |
| `X402Middleware.FormatReasonIdentifiesDecodeFailure` | packages/gateway/src/middleware/x402.middleware.ts:102-185 | the verdict is the format rejection exactly when the header does not decode, so no later check can produce that reason |
| `X402Middleware.FixedReasonsAreNotLedgerErrors` | packages/gateway/src/middleware/x402.middleware.ts:108-160 | none of the gate's seven fixed reasons has the shape of a ledger error |
| `X402Middleware.NonceReasonsAreNotLedgerErrors` | packages/gateway/src/middleware/x402.middleware.ts:108-122 | neither nonce reason has the shape of a ledger error |
| `X402Middleware.InsufficientReasonIsNotLedgerError` | packages/gateway/src/middleware/x402.middleware.ts:148-153 | an underpayment reason never has the shape of a ledger error |
| `X402Middleware.LedgerErrorsAreDistinct` | packages/gateway/src/services/stacks/payment-verifier.ts:35-67 | every error the ledger verifier reports has the shape of a ledger error (the fetch failure, "Not a token transfer transaction", or "Transaction status: " and the status) and equals no reason of the gate's own |
| `X402Middleware.InsufficientReasonIsDistinct` | packages/gateway/src/middleware/x402.middleware.ts:148-153 | an underpayment reason starts "Insufficient payment. Expected: " and differs from every other reason |
| `X402Middleware.ReasonIdentifiesCheck` | packages/gateway/src/middleware/x402.middleware.ts:108-160 | each reason implies that its check failed and all earlier ones passed, so a client can tell replay, expiry, a missing transaction id, a ledger failure (whose reason is the verifier's own error), underpayment and a wrong recipient apart |
| `X402Middleware.FallbackReasonUnreachable` | packages/gateway/src/middleware/x402.middleware.ts:140-145 | the reason "Transaction not found or pending" is never produced |
| `X402Middleware.UnknownNonceIsReplay` | packages/gateway/src/middleware/x402.middleware.ts:108-114 | a proof naming a nonce the store does not hold is rejected as a replay |
| `X402Middleware.AmountBoundary` | packages/gateway/src/middleware/x402.middleware.ts:147-153 | paying exactly the expected amount is accepted; one unit less is rejected as insufficient, with both figures in the reason |
| `X402Middleware.ExpiryBoundary` | packages/gateway/src/middleware/x402.middleware.ts:124-129 | a challenge is not expired at its expiry instant; an absent or zero expiry is never checked; otherwise it is expired exactly when the clock is past it |
| `X402Middleware.UnparsableAmountSkipsCheck` | packages/gateway/src/middleware/x402.middleware.ts:147-153 | when the proof's amount does not parse, the amount check never rejects |
| `X402Middleware.RewrittenChallengeAdmitted` | packages/gateway/src/middleware/x402.middleware.ts:147-160 | a proof whose embedded challenge asks for 0 and names the payer's own address is admitted on a transfer of 0 to that address |
| `X402Middleware.ChallengeRoundTrip` | packages/gateway/src/middleware/x402.middleware.ts:67-162 | re-submitting the issued challenge with a confirmed transfer of at least the price to the configured recipient is admitted exactly while the nonce is unused and younger than 300000 ms |
| `X402Middleware.ReplayRejectedForever` | packages/gateway/src/middleware/x402.middleware.ts:108-162 | after a proof is admitted and its nonce marked, every later proof naming that nonce is rejected as a replay, whatever store operations with fresh nonces came between |
| `X402Middleware.PaidRequestScenario` | packages/gateway/src/middleware/x402.middleware.ts:35-59 | on a fresh store the handler answers a bare request with a 402 challenge carrying the minted nonce, admits the proof that pays it before expiry with its transaction id, and rejects the same proof sent again with 403 and the replay reason |
| `X402Middleware.MalformedHeaderRejected` | packages/gateway/src/middleware/x402.middleware.ts:179-185 | a header that does not decode gives "Invalid payment signature format" and leaves the store unchanged |
| `X402Middleware.StoreChangesOnlyOnAdmission` | packages/gateway/src/middleware/x402.middleware.ts:108-162 | verification never adds or removes a nonce or changes a timestamp; an admission flips exactly its own nonce from unused to used |

## Left out

- The Redis-backed path of the nonce store, including its silent switch to the in-process map on errors (nonce-manager.ts:10-34 and the `client` branches), and the `client.quit()` in cleanup. Only the in-process map is modelled.
- Random nonce generation (`crypto.randomBytes`): `Generate` receives the drawn token as a parameter. Freshness is a premise of the lemmas that need it (`GenerateFresh`, `UsedStaysUsed`), not a requirement on the method, which overwrites like the source's map.
- Header decoding (base64 and `JSON.parse`): an abstract decoder that returns a well-typed proof or nothing. A JSON value of the wrong shape, for example a non-numeric `expiresAt`, is not modelled separately from a decode failure.
- The ledger API call and the choice of mainnet or testnet: the ledger is the map of transactions the lookup would return. Any other id fails the lookup.
- The clock: time is a parameter. One request reads it once. The source reads `Date.now()` separately when creating the nonce, when building the challenge, in `isValid` and in the expiry check.
- WaitForConfirmation: each poll sees the ledger as it stands at the clock reading that starts the round. The lookup time and the timer's lateness are folded into one non-negative delay per round.
- Concurrency: the check-then-mark race between `isUsed` and `markUsed` across awaits cannot be expressed. Single use is proved for sequential executions only (`ReplayRejectedForever`).
- The `signature` and `publicKey` fields of the proof, which the code never checks.
- Express plumbing, logging and the protected handler itself. Express calls `next` inside its own try block, so an error in a later handler does not reach this gate's catch.
- What the framework does with an `Escaped` error: the application's error handler (packages/gateway/src/index.ts:34-37) answers 500 "Internal server error" when the framework forwards rejected promises to it, as Express 5 does; under Express 4 the rejection goes unhandled and the client gets no reply. Neither packages/gateway/src/index.ts nor packages/gateway/src/init.ts installs an `unhandledRejection` handler, so on Node 15 and later the default behaviour then ends the process: one request without a proof for an unknown model stops the gateway.
- The floating-point `usdEquivalent` of each price entry.
- JavaScript numbers beyond integers: precision loss above 2^53 and exponent notation from 10^21 on.
- Pricing.GetPrice: keys inherited from `Object.prototype` (`toString`, `constructor`, `__proto__`, and so on) fail in the model. In the source they return the inherited member instead of throwing. The challenge path then fails at `basePrice.toString()`, and that error escapes the handler in the same way as the unknown-model error.
