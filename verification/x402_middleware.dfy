/**
 * The pay-per-call gate (HTTP 402 "Payment Required", section 15.5.3 of
 * RFC 9110, used as a challenge/response protocol). A request without a
 * payment proof gets a priced challenge carrying a fresh nonce; a request with
 * one is checked against the nonce store and the ledger, and only a proof
 * that passes every check consumes its nonce and reaches the handler.
 */
module X402Middleware {
  import opened Wrappers
  import opened JsNumbers
  import opened X402Types
  import opened Pricing
  import opened NonceStore
  import opened PaymentVerifier

  // Written as two literals: the verifier does not unfold the length or the first
  // characters of a single literal this long, and it does unfold a concatenation.
  const ReplayReason := "Nonce already used " + "(replay attack prevention)"
  const NonceExpiredReason := "Nonce expired"
  const RequirementsExpiredReason := "Payment requirements expired"
  const TxIdRequiredReason := "Transaction ID required"
  const NotFoundOrPendingReason := "Transaction not found or pending"
  const InvalidRecipientReason := "Invalid recipient address"
  const InvalidFormatReason := "Invalid payment signature format"
  const InsufficientPrefix := "Insufficient payment. Expected: "

  function InsufficientReason(expected: JsNumber, got: JsNumber): string
  {
    InsufficientPrefix + NumberToString(expected) + ", Got: " + NumberToString(got)
  }

  /** How long a challenge stays payable, in milliseconds. */
  const RequirementsLifetimeMs: nat := 300000

  /** A string-valued field or header as JavaScript tests it: absent and "" are both false. */
  predicate Present(s: Option<string>)
  {
    s.Some? && s.value != ""
  }

  /** `expiresAt && now > expiresAt`: an absent or zero expiry is never exceeded. */
  predicate RequirementsExpired(expiresAt: Option<int>, now: int)
  {
    expiresAt.Some? && expiresAt.value != 0 && now > expiresAt.value
  }

  /** The parameters the route gives the gate. */
  datatype Options = Options(scheme: Scheme, asset: Asset, modelType: string)

  /** The process environment the gate reads: the ledger network name and the recipient. */
  datatype Env = Env(stacksNetwork: Option<string>, paymentRecipientAddress: string)

  function NetworkName(env: Env): string
  {
    if Present(env.stacksNetwork) then env.stacksNetwork.value else "testnet"
  }

  /** The challenge issued at `now` for a model whose base price is `basePrice`. */
  function BuildRequirements(options: Options, env: Env, nonce: string, basePrice: nat, now: int): PaymentRequirements
  {
    PaymentRequirements(
      scheme := options.scheme,
      network := "stacks:" + NetworkName(env),
      asset := options.asset,
      payTo := env.paymentRecipientAddress,
      amount := NumberToString(Num(basePrice)),
      resource := "/v1/prompt/" + options.modelType,
      nonce := nonce,
      description := Some("Payment for " + options.modelType + " AI model"),
      expiresAt := Some(now + RequirementsLifetimeMs))
  }

  /** The checks before the amount: nonce, expiry, transaction id and ledger. */
  predicate PassesUpToLedger(payload: PaymentPayload, store: Store, now: int, ledger: Ledger)
  {
    var req := payload.paymentRequirements;
    && !UsedIn(store, req.nonce)
    && ValidIn(store, req.nonce, now)
    && !RequirementsExpired(req.expiresAt, now)
    && Present(payload.txId)
    && VerifyTransaction(payload.txId.value, ledger).TxSuccess?
  }

  /**
   * A proof the gate admits, stated without regard to the order of the checks.
   * Amount and recipient are compared with the requirements embedded in the
   * payload itself.
   */
  predicate Admissible(payload: PaymentPayload, store: Store, now: int, ledger: Ledger)
  {
    && PassesUpToLedger(payload, store, now, ledger)
    && var tx := VerifyTransaction(payload.txId.value, ledger);
    && !Less(tx.amount, ParseInt(payload.paymentRequirements.amount))
    && tx.recipient == payload.paymentRequirements.payTo
  }

  /**
   * The verdict on a decoded proof, given the nonce store, the clock and the
   * ledger: the first failing check gives the reason; a proof passing all of
   * them yields the payment the ledger recorded.
   */
  function PaymentVerdict(payload: PaymentPayload, store: Store, now: int, ledger: Ledger): (r: PaymentVerificationResult)
    ensures r.Valid? <==> Admissible(payload, store, now, ledger)
    ensures r.Valid? ==>
      var tx := VerifyTransaction(payload.txId.value, ledger);
      r.payment == PaymentInfo(payload.txId.value, tx.amount, tx.sender, tx.timestamp)
    ensures r.Invalid? ==> r.reason != ""
  {
    var req := payload.paymentRequirements;
    if UsedIn(store, req.nonce) then Invalid(ReplayReason)
    else if !ValidIn(store, req.nonce, now) then Invalid(NonceExpiredReason)
    else if RequirementsExpired(req.expiresAt, now) then Invalid(RequirementsExpiredReason)
    else if !Present(payload.txId) then Invalid(TxIdRequiredReason)
    else
      var tx := VerifyTransaction(payload.txId.value, ledger);
      if tx.TxFailure? then Invalid(if tx.error != "" then tx.error else NotFoundOrPendingReason)
      else
        var expected := ParseInt(req.amount);
        if Less(tx.amount, expected) then Invalid(InsufficientReason(expected, tx.amount))
        else if tx.recipient != req.payTo then Invalid(InvalidRecipientReason)
        else Valid(PaymentInfo(payload.txId.value, tx.amount, tx.sender, tx.timestamp))
  }

  /** The verdict on a raw header: one that does not decode is rejected as malformed. */
  function Verdict(header: string, decode: string -> Option<PaymentPayload>, store: Store, now: int, ledger: Ledger)
    : PaymentVerificationResult
  {
    match decode(header)
    case None => Invalid(InvalidFormatReason)
    case Some(payload) => PaymentVerdict(payload, store, now, ledger)
  }

  /** The nonce store after verifying a header: only an admitted proof marks its nonce used. */
  function StoreAfter(header: string, decode: string -> Option<PaymentPayload>, store: Store, now: int, ledger: Ledger)
    : (s: Store)
    ensures Verdict(header, decode, store, now, ledger).Invalid? ==> s == store
  {
    match decode(header)
    case None => store
    case Some(payload) =>
      if PaymentVerdict(payload, store, now, ledger).Valid?
      then MarkedUsed(store, payload.paymentRequirements.nonce)
      else store
  }

  /**
   * `verifyPayment`: decodes the header (an abstract decoder that may fail)
   * and runs the checks in order against the nonce store; the nonce is marked
   * used only once every check has passed. The route's model type is not
   * consulted.
   */
  method VerifyPayment(nonces: NonceManager, header: string, decode: string -> Option<PaymentPayload>,
                       now: int, ledger: Ledger)
    returns (r: PaymentVerificationResult)
    modifies nonces
    ensures r == Verdict(header, decode, old(nonces.inMemoryStore), now, ledger)
    ensures nonces.inMemoryStore == StoreAfter(header, decode, old(nonces.inMemoryStore), now, ledger)
  {
    var decoded := decode(header);
    if decoded.None? {
      return Invalid(InvalidFormatReason);
    }
    var payload := decoded.value;
    var req := payload.paymentRequirements;
    var nonceUsed := nonces.IsUsed(req.nonce);
    if nonceUsed {
      return Invalid(ReplayReason);
    }
    var nonceValid := nonces.IsValid(req.nonce, now);
    if !nonceValid {
      return Invalid(NonceExpiredReason);
    }
    if RequirementsExpired(req.expiresAt, now) {
      return Invalid(RequirementsExpiredReason);
    }
    if !Present(payload.txId) {
      return Invalid(TxIdRequiredReason);
    }
    var txId := payload.txId.value;
    var tx := VerifyTransaction(txId, ledger);
    if tx.TxFailure? {
      return Invalid(if tx.error != "" then tx.error else NotFoundOrPendingReason);
    }
    var expected := ParseInt(req.amount);
    if Less(tx.amount, expected) {
      return Invalid(InsufficientReason(expected, tx.amount));
    }
    if tx.recipient != req.payTo {
      return Invalid(InvalidRecipientReason);
    }
    nonces.MarkUsed(req.nonce);
    r := Valid(PaymentInfo(txId, tx.amount, tx.sender, tx.timestamp));
  }

  datatype Body =
    | ChallengeBody(paymentRequirements: PaymentRequirements)
    | RejectionBody(error: string, reason: string)

  /**
   * A reply sent by the gate, the request passed on to the handler with its
   * payment, or an error that escapes the handler unanswered: the handler
   * returns the challenge builder's promise without awaiting it, so an error
   * thrown there rejects that promise outside the handler's own try block.
   */
  datatype Response = Reply(status: int, body: Body) | Next(paymentInfo: PaymentInfo) | Escaped(error: string)

  const VerificationFailedMessage := "Payment verification failed"

  /** The reply for a verdict on a proof. */
  function Answer(verdict: PaymentVerificationResult): Response
  {
    match verdict
    case Invalid(reason) => Reply(403, RejectionBody(VerificationFailedMessage, reason))
    case Valid(payment) => Next(payment)
  }

  /**
   * The gate's request handler. `header` is the `payment-signature` header,
   * `freshNonce` the random token drawn for a challenge, `now` the clock.
   * Without a proof it mints a nonce and answers 402 with the challenge;
   * pricing an unknown model throws after the nonce was stored, and that
   * error escapes the handler. With a proof it answers 403 with the reason
   * of a rejection, or passes the request on with the payment.
   */
  method RequirePayment(nonces: NonceManager, options: Options, env: Env, header: Option<string>,
                        decode: string -> Option<PaymentPayload>, freshNonce: string, now: int, ledger: Ledger)
    returns (resp: Response)
    modifies nonces
    ensures !Present(header) ==>
      nonces.inMemoryStore == Generated(old(nonces.inMemoryStore), freshNonce, now)
    ensures !Present(header) ==>
      resp == match GetPrice(options.modelType)
              case Success(entry) => Reply(402, ChallengeBody(BuildRequirements(options, env, freshNonce, entry.basePrice, now)))
              case Failure(error) => Escaped(error)
    ensures Present(header) ==>
      && resp == Answer(Verdict(header.value, decode, old(nonces.inMemoryStore), now, ledger))
      && nonces.inMemoryStore == StoreAfter(header.value, decode, old(nonces.inMemoryStore), now, ledger)
  {
    if !Present(header) {
      var nonce := nonces.Generate(freshNonce, now);
      var pricing := GetPrice(options.modelType);
      if pricing.Failure? {
        return Escaped(pricing.error);
      }
      var requirements := BuildRequirements(options, env, nonce, pricing.value.basePrice, now);
      return Reply(402, ChallengeBody(requirements));
    }
    var verification := VerifyPayment(nonces, header.value, decode, now, ledger);
    if verification.Invalid? {
      return Reply(403, RejectionBody(VerificationFailedMessage, verification.reason));
    }
    resp := Next(verification.payment);
  }

  /** The challenge carries exactly the fields it is built from. */
  lemma ChallengeFields(options: Options, env: Env, nonce: string, basePrice: nat, now: int)
    ensures var req := BuildRequirements(options, env, nonce, basePrice, now);
      && req.amount == DecimalString(basePrice)
      && req.resource == "/v1/prompt/" + options.modelType
      && req.network == "stacks:" + NetworkName(env)
      && req.expiresAt == Some(now + 300000)
      && req.nonce == nonce
      && req.payTo == env.paymentRecipientAddress
    ensures env.stacksNetwork == None ==> BuildRequirements(options, env, nonce, basePrice, now).network == "stacks:testnet"
  {
  }

  /** Parsing the challenge's amount, as the gate does, gives back the base price. */
  lemma {:induction false} ChallengeAmountRoundTrip(options: Options, env: Env, nonce: string, basePrice: nat, now: int)
    ensures ParseInt(BuildRequirements(options, env, nonce, basePrice, now).amount) == Num(basePrice)
  {
    ParseIntOfToString(basePrice);
  }

  /** The checks run in a fixed order; the first failing one decides the reason. */
  lemma CheckOrder(payload: PaymentPayload, store: Store, now: int, ledger: Ledger)
    ensures var req := payload.paymentRequirements;
      var r := PaymentVerdict(payload, store, now, ledger);
      && (UsedIn(store, req.nonce) ==> r == Invalid(ReplayReason))
      && (!UsedIn(store, req.nonce) && !ValidIn(store, req.nonce, now) ==> r == Invalid(NonceExpiredReason))
      && ((!UsedIn(store, req.nonce) && ValidIn(store, req.nonce, now) && RequirementsExpired(req.expiresAt, now))
            ==> r == Invalid(RequirementsExpiredReason))
      && ((!UsedIn(store, req.nonce) && ValidIn(store, req.nonce, now) && !RequirementsExpired(req.expiresAt, now)
            && !Present(payload.txId)) ==> r == Invalid(TxIdRequiredReason))
    ensures var req := payload.paymentRequirements;
      var r := PaymentVerdict(payload, store, now, ledger);
      !UsedIn(store, req.nonce) && ValidIn(store, req.nonce, now) && !RequirementsExpired(req.expiresAt, now)
      && Present(payload.txId) ==>
        var tx := VerifyTransaction(payload.txId.value, ledger);
        && (tx.TxFailure? ==> r == Invalid(tx.error))
        && ((tx.TxSuccess? && Less(tx.amount, ParseInt(req.amount)))
              ==> r == Invalid(InsufficientReason(ParseInt(req.amount), tx.amount)))
        && ((tx.TxSuccess? && !Less(tx.amount, ParseInt(req.amount)) && tx.recipient != req.payTo)
              ==> r == Invalid(InvalidRecipientReason))
  {
  }

  predicate IsInsufficientReason(reason: string)
  {
    InsufficientPrefix <= reason
  }

  /** Two strings that differ at position `i` are different and neither is a prefix of the other. */
  lemma DifferAt(a: string, b: string, i: nat)
    requires i < |a| && i < |b| && a[i] != b[i]
    ensures a != b && !(a <= b) && !(b <= a)
  {
  }

  /** The replay reason differs from every other fixed reason of the gate. */
  lemma ReplayReasonIsDistinct()
    ensures ReplayReason !in {NonceExpiredReason, RequirementsExpiredReason, TxIdRequiredReason,
                              NotFoundOrPendingReason, InvalidRecipientReason, InvalidFormatReason}
  {
    DifferAt(ReplayReason, NonceExpiredReason, 6);
    DifferAt(ReplayReason, RequirementsExpiredReason, 0);
    DifferAt(ReplayReason, TxIdRequiredReason, 0);
    DifferAt(ReplayReason, NotFoundOrPendingReason, 0);
    DifferAt(ReplayReason, InvalidRecipientReason, 0);
    DifferAt(ReplayReason, InvalidFormatReason, 0);
  }

  /** The gate's own reasons are pairwise different. */
  lemma GateReasonsAreDistinct()
    ensures ReplayReason != NonceExpiredReason && ReplayReason != RequirementsExpiredReason
    ensures ReplayReason != TxIdRequiredReason && ReplayReason != InvalidRecipientReason
    ensures NonceExpiredReason != RequirementsExpiredReason && NonceExpiredReason != TxIdRequiredReason
    ensures NonceExpiredReason != InvalidRecipientReason
    ensures RequirementsExpiredReason != TxIdRequiredReason && RequirementsExpiredReason != InvalidRecipientReason
    ensures TxIdRequiredReason != InvalidRecipientReason
    ensures NotFoundOrPendingReason !in {ReplayReason, NonceExpiredReason, RequirementsExpiredReason,
                                         TxIdRequiredReason, InvalidRecipientReason}
    ensures InvalidFormatReason !in {ReplayReason, NonceExpiredReason, RequirementsExpiredReason,
                                     TxIdRequiredReason, NotFoundOrPendingReason, InvalidRecipientReason}
  {
    ReplayReasonIsDistinct();
    DifferAt(NonceExpiredReason, RequirementsExpiredReason, 0);
    DifferAt(NonceExpiredReason, TxIdRequiredReason, 0);
    DifferAt(NonceExpiredReason, InvalidRecipientReason, 0);
    DifferAt(RequirementsExpiredReason, TxIdRequiredReason, 0);
    DifferAt(RequirementsExpiredReason, InvalidRecipientReason, 0);
    DifferAt(TxIdRequiredReason, InvalidRecipientReason, 0);
    DifferAt(NotFoundOrPendingReason, NonceExpiredReason, 0);
    DifferAt(NotFoundOrPendingReason, RequirementsExpiredReason, 0);
    DifferAt(NotFoundOrPendingReason, TxIdRequiredReason, 12);
    DifferAt(NotFoundOrPendingReason, InvalidRecipientReason, 0);
    DifferAt(InvalidFormatReason, NonceExpiredReason, 0);
    DifferAt(InvalidFormatReason, RequirementsExpiredReason, 0);
    DifferAt(InvalidFormatReason, TxIdRequiredReason, 0);
    DifferAt(InvalidFormatReason, NotFoundOrPendingReason, 0);
    DifferAt(InvalidFormatReason, InvalidRecipientReason, 8);
  }

  /** None of the gate's fixed reasons reads as an underpayment. */
  lemma FixedReasonsAreNotUnderpayment()
    ensures !IsInsufficientReason(ReplayReason) && !IsInsufficientReason(NonceExpiredReason)
    ensures !IsInsufficientReason(RequirementsExpiredReason) && !IsInsufficientReason(TxIdRequiredReason)
    ensures !IsInsufficientReason(NotFoundOrPendingReason) && !IsInsufficientReason(InvalidRecipientReason)
    ensures !IsInsufficientReason(InvalidFormatReason)
  {
    DifferAt(ReplayReason, InsufficientPrefix, 0);
    DifferAt(NonceExpiredReason, InsufficientPrefix, 0);
    DifferAt(RequirementsExpiredReason, InsufficientPrefix, 0);
    DifferAt(TxIdRequiredReason, InsufficientPrefix, 0);
    DifferAt(NotFoundOrPendingReason, InsufficientPrefix, 0);
    DifferAt(InvalidRecipientReason, InsufficientPrefix, 2);
    DifferAt(InvalidFormatReason, InsufficientPrefix, 2);
  }

  /** The shape of an error the ledger verifier reports, as the gate forwards it. */
  predicate IsLedgerError(reason: string)
  {
    reason == FetchFailedError || reason == NotTransferError || "Transaction status: " <= reason
  }

  /** No fixed reason of the gate's own has the shape of a ledger error. */
  lemma FixedReasonsAreNotLedgerErrors()
    ensures !IsLedgerError(ReplayReason) && !IsLedgerError(NonceExpiredReason)
    ensures !IsLedgerError(RequirementsExpiredReason) && !IsLedgerError(TxIdRequiredReason)
    ensures !IsLedgerError(NotFoundOrPendingReason) && !IsLedgerError(InvalidRecipientReason)
    ensures !IsLedgerError(InvalidFormatReason)
  {
    NonceReasonsAreNotLedgerErrors();
    var status := "Transaction status: ";
    DifferAt(RequirementsExpiredReason, FetchFailedError, 0);
    DifferAt(RequirementsExpiredReason, NotTransferError, 0);
    DifferAt(RequirementsExpiredReason, status, 0);
    DifferAt(TxIdRequiredReason, FetchFailedError, 0);
    DifferAt(TxIdRequiredReason, NotTransferError, 0);
    DifferAt(TxIdRequiredReason, status, 12);
    DifferAt(NotFoundOrPendingReason, FetchFailedError, 0);
    DifferAt(NotFoundOrPendingReason, NotTransferError, 0);
    DifferAt(NotFoundOrPendingReason, status, 12);
    DifferAt(InvalidRecipientReason, FetchFailedError, 0);
    DifferAt(InvalidRecipientReason, NotTransferError, 0);
    DifferAt(InvalidRecipientReason, status, 0);
    DifferAt(InvalidFormatReason, FetchFailedError, 0);
    DifferAt(InvalidFormatReason, NotTransferError, 0);
    DifferAt(InvalidFormatReason, status, 0);
  }

  /** The two nonce reasons, which share their first letters with a ledger error, are not ledger errors. */
  lemma NonceReasonsAreNotLedgerErrors()
    ensures !IsLedgerError(ReplayReason) && !IsLedgerError(NonceExpiredReason)
  {
    var status := "Transaction status: ";
    DifferAt(ReplayReason, FetchFailedError, 0);
    DifferAt(ReplayReason, NotTransferError, 2);
    DifferAt(ReplayReason, status, 0);
    DifferAt(NonceExpiredReason, FetchFailedError, 0);
    DifferAt(NonceExpiredReason, NotTransferError, 2);
    DifferAt(NonceExpiredReason, status, 0);
  }

  /** An underpayment reason does not have the shape of a ledger error. */
  lemma InsufficientReasonIsNotLedgerError(expected: JsNumber, got: JsNumber)
    ensures !IsLedgerError(InsufficientReason(expected, got))
  {
    var reason := InsufficientReason(expected, got);
    assert reason[..|InsufficientPrefix|] == InsufficientPrefix;
    assert reason[0] == 'I';
    DifferAt(reason, FetchFailedError, 0);
    DifferAt(reason, NotTransferError, 0);
    DifferAt(reason, "Transaction status: ", 0);
  }

  /**
   * The errors the ledger verifier reports differ from every reason the gate
   * itself produces, including the fallback used when a failure carries none.
   */
  lemma {:induction false} LedgerErrorsAreDistinct(txId: string, ledger: Ledger)
    ensures var tx := VerifyTransaction(txId, ledger);
      tx.TxFailure? ==>
        && tx.error !in {ReplayReason, NonceExpiredReason, RequirementsExpiredReason, TxIdRequiredReason,
                         NotFoundOrPendingReason, InvalidRecipientReason, InvalidFormatReason}
        && !IsInsufficientReason(tx.error)
        && IsLedgerError(tx.error)
  {
    var tx := VerifyTransaction(txId, ledger);
    if tx.TxFailure? {
      var e := tx.error;
      if txId in ledger && ledger[txId].txStatus != "success" {
        assert e == "Transaction status: " + ledger[txId].txStatus;
        assert e[..20] == "Transaction status: ";
        assert e[0] == 'T' && e[12] == 's';
        DifferAt(e, ReplayReason, 0);
        DifferAt(e, NonceExpiredReason, 0);
        DifferAt(e, RequirementsExpiredReason, 0);
        DifferAt(e, TxIdRequiredReason, 12);
        DifferAt(e, NotFoundOrPendingReason, 12);
        DifferAt(e, InvalidRecipientReason, 0);
        DifferAt(e, InvalidFormatReason, 0);
        DifferAt(e, InsufficientPrefix, 0);
      } else {
        assert e == FetchFailedError || e == NotTransferError;
        DifferAt(FetchFailedError, InsufficientPrefix, 0);
        DifferAt(NotTransferError, InsufficientPrefix, 0);
      }
    }
  }

  /**
   * Every reason identifies the check that failed: a rejection with a given
   * reason means that check failed and all earlier ones passed.
   */
  lemma {:induction false} ReasonIdentifiesCheck(payload: PaymentPayload, store: Store, now: int, ledger: Ledger)
    ensures var req := payload.paymentRequirements;
      var r := PaymentVerdict(payload, store, now, ledger);
      && (r == Invalid(ReplayReason) ==> UsedIn(store, req.nonce))
      && (r == Invalid(NonceExpiredReason) ==> !UsedIn(store, req.nonce) && !ValidIn(store, req.nonce, now))
      && (r == Invalid(RequirementsExpiredReason) ==>
            !UsedIn(store, req.nonce) && ValidIn(store, req.nonce, now) && RequirementsExpired(req.expiresAt, now))
      && (r == Invalid(TxIdRequiredReason) ==>
            !UsedIn(store, req.nonce) && ValidIn(store, req.nonce, now) && !RequirementsExpired(req.expiresAt, now)
            && !Present(payload.txId))
      && (r.Invalid? && IsInsufficientReason(r.reason) ==>
            PassesUpToLedger(payload, store, now, ledger)
            && Less(VerifyTransaction(payload.txId.value, ledger).amount, ParseInt(req.amount)))
      && (r == Invalid(InvalidRecipientReason) ==>
            PassesUpToLedger(payload, store, now, ledger)
            && var tx := VerifyTransaction(payload.txId.value, ledger);
            !Less(tx.amount, ParseInt(req.amount)) && tx.recipient != req.payTo)
      && (r.Invalid? && IsLedgerError(r.reason) ==>
            !UsedIn(store, req.nonce) && ValidIn(store, req.nonce, now) && !RequirementsExpired(req.expiresAt, now)
            && Present(payload.txId)
            && VerifyTransaction(payload.txId.value, ledger) == TxFailure(r.reason))
  {
    GateReasonsAreDistinct();
    FixedReasonsAreNotUnderpayment();
    var req := payload.paymentRequirements;
    FixedReasonsAreNotLedgerErrors();
    if !UsedIn(store, req.nonce) && ValidIn(store, req.nonce, now) && !RequirementsExpired(req.expiresAt, now)
       && Present(payload.txId) {
      LedgerErrorsAreDistinct(payload.txId.value, ledger);
      var tx := VerifyTransaction(payload.txId.value, ledger);
      if tx.TxSuccess? && Less(tx.amount, ParseInt(req.amount)) {
        InsufficientReasonIsDistinct(ParseInt(req.amount), tx.amount);
        InsufficientReasonIsNotLedgerError(ParseInt(req.amount), tx.amount);
      }
    }
  }

  /** An underpayment reason is recognisable as such and differs from every other reason. */
  lemma InsufficientReasonIsDistinct(expected: JsNumber, got: JsNumber)
    ensures IsInsufficientReason(InsufficientReason(expected, got))
    ensures InsufficientReason(expected, got) !in {ReplayReason, NonceExpiredReason, RequirementsExpiredReason,
                                                   TxIdRequiredReason, NotFoundOrPendingReason,
                                                   InvalidRecipientReason, InvalidFormatReason}
  {
    var reason := InsufficientReason(expected, got);
    assert reason[..|InsufficientPrefix|] == InsufficientPrefix;
    FixedReasonsAreNotUnderpayment();
  }

  /** The gate's fallback reason for a ledger failure without an error is never produced. */
  lemma FallbackReasonUnreachable(payload: PaymentPayload, store: Store, now: int, ledger: Ledger)
    ensures PaymentVerdict(payload, store, now, ledger) != Invalid(NotFoundOrPendingReason)
  {
    GateReasonsAreDistinct();
    var req := payload.paymentRequirements;
    if !UsedIn(store, req.nonce) && ValidIn(store, req.nonce, now) && !RequirementsExpired(req.expiresAt, now)
       && Present(payload.txId) {
      LedgerErrorsAreDistinct(payload.txId.value, ledger);
      var tx := VerifyTransaction(payload.txId.value, ledger);
      if tx.TxSuccess? && Less(tx.amount, ParseInt(req.amount)) {
        InsufficientReasonIsDistinct(ParseInt(req.amount), tx.amount);
      }
    }
  }

  /**
   * The format rejection is distinct from every policy rejection: it is the
   * verdict exactly when the header does not decode.
   */
  lemma {:induction false} FormatReasonIdentifiesDecodeFailure(header: string, decode: string -> Option<PaymentPayload>,
                                                              store: Store, now: int, ledger: Ledger)
    ensures Verdict(header, decode, store, now, ledger) == Invalid(InvalidFormatReason) <==> decode(header) == None
  {
    if decode(header).Some? {
      var payload := decode(header).value;
      var req := payload.paymentRequirements;
      GateReasonsAreDistinct();
      if !UsedIn(store, req.nonce) && ValidIn(store, req.nonce, now) && !RequirementsExpired(req.expiresAt, now)
         && Present(payload.txId) {
        LedgerErrorsAreDistinct(payload.txId.value, ledger);
        var tx := VerifyTransaction(payload.txId.value, ledger);
        if tx.TxSuccess? && Less(tx.amount, ParseInt(req.amount)) {
          InsufficientReasonIsDistinct(ParseInt(req.amount), tx.amount);
        }
      }
    }
  }

  /** A nonce the store never issued (or has evicted) is rejected as a replay. */
  lemma UnknownNonceIsReplay(payload: PaymentPayload, store: Store, now: int, ledger: Ledger)
    requires payload.paymentRequirements.nonce !in store
    ensures PaymentVerdict(payload, store, now, ledger) == Invalid(ReplayReason)
  {
  }

  /**
   * Paying exactly the amount asked for is enough; one unit less is rejected
   * as insufficient, with both figures in the reason.
   */
  lemma AmountBoundary(payload: PaymentPayload, store: Store, now: int, ledger: Ledger, price: int)
    requires PassesUpToLedger(payload, store, now, ledger)
    requires ParseInt(payload.paymentRequirements.amount) == Num(price)
    requires VerifyTransaction(payload.txId.value, ledger).recipient == payload.paymentRequirements.payTo
    ensures VerifyTransaction(payload.txId.value, ledger).amount == Num(price) ==>
      PaymentVerdict(payload, store, now, ledger).Valid?
    ensures VerifyTransaction(payload.txId.value, ledger).amount == Num(price - 1) ==>
      PaymentVerdict(payload, store, now, ledger) == Invalid(InsufficientReason(Num(price), Num(price - 1)))
  {
  }

  /**
   * The challenge expiry is inclusive: at the expiry instant itself it still
   * holds. An absent expiry, or one of 0, is never checked.
   */
  lemma ExpiryBoundary(expiresAt: int, now: int)
    ensures !RequirementsExpired(Some(now), now)
    ensures !RequirementsExpired(None, now)
    ensures !RequirementsExpired(Some(0), now)
    ensures expiresAt != 0 ==> (RequirementsExpired(Some(expiresAt), now) <==> now > expiresAt)
  {
  }

  /**
   * An amount in the proof that `parseInt` cannot read makes the amount check
   * pass whatever was paid, because every comparison with NaN is false.
   */
  lemma UnparsableAmountSkipsCheck(payload: PaymentPayload, store: Store, now: int, ledger: Ledger)
    requires ParseInt(payload.paymentRequirements.amount) == NaN
    ensures PaymentVerdict(payload, store, now, ledger).Valid? <==>
      PassesUpToLedger(payload, store, now, ledger)
      && VerifyTransaction(payload.txId.value, ledger).recipient == payload.paymentRequirements.payTo
  {
  }

  /**
   * The amount and recipient are taken from the proof, not from the price
   * list or the configured recipient: a proof whose embedded challenge was
   * rewritten to ask for 0 and to name the payer's own address is admitted
   * on a transfer of 0 to that address.
   */
  lemma RewrittenChallengeAdmitted(payload: PaymentPayload, store: Store, now: int, ledger: Ledger)
    requires !UsedIn(store, payload.paymentRequirements.nonce) && ValidIn(store, payload.paymentRequirements.nonce, now)
    requires payload.paymentRequirements.expiresAt == None && payload.paymentRequirements.amount == "0"
    requires Present(payload.txId)
    requires var tx := VerifyTransaction(payload.txId.value, ledger);
      tx.TxSuccess? && tx.amount == Num(0) && tx.recipient == payload.paymentRequirements.payTo
    ensures PaymentVerdict(payload, store, now, ledger).Valid?
  {
    ParseIntOfNumeral("0", "0");
    assert Admissible(payload, store, now, ledger);
  }

  /**
   * Re-submitting the challenge it was issued: a proof that embeds the
   * challenge minted at `issuedAt` and names a confirmed transfer of at least
   * the price to the configured recipient is admitted exactly while its
   * nonce is unused and younger than the nonce lifetime.
   */
  lemma {:induction false} ChallengeRoundTrip(options: Options, env: Env, nonce: string, price: nat, issuedAt: int,
                                              store: Store, now: int, txId: string, ledger: Ledger,
                                              signature: string, publicKey: string)
    requires nonce in store && store[nonce].timestamp == issuedAt
    requires txId != ""
    requires var tx := VerifyTransaction(txId, ledger);
      tx.TxSuccess? && tx.amount.Num? && tx.amount.value >= price && tx.recipient == env.paymentRecipientAddress
    ensures var payload := PaymentPayload(BuildRequirements(options, env, nonce, price, issuedAt), signature, publicKey, Some(txId));
      PaymentVerdict(payload, store, now, ledger).Valid? <==> !store[nonce].used && now - issuedAt < NonceTtlMs
  {
    ChallengeAmountRoundTrip(options, env, nonce, price, issuedAt);
  }

  /**
   * Single use, for sequential executions: once a proof has been admitted and
   * its nonce marked, every later proof naming that nonce is rejected as a
   * replay, after any sequence of store operations that only generates new
   * nonces.
   */
  lemma {:induction false} ReplayRejectedForever(payload: PaymentPayload, store: Store, now: int, ledger: Ledger,
                                                 issued: set<string>, ops: seq<StoreOp>,
                                                 later: PaymentPayload, laterNow: int, laterLedger: Ledger)
    requires PaymentVerdict(payload, store, now, ledger).Valid?
    requires store.Keys <= issued && FreshOps(ops, issued)
    requires later.paymentRequirements.nonce == payload.paymentRequirements.nonce
    ensures PaymentVerdict(later, ApplyAll(MarkedUsed(store, payload.paymentRequirements.nonce), ops), laterNow, laterLedger)
            == Invalid(ReplayReason)
  {
    var nonce := payload.paymentRequirements.nonce;
    UsedAfterMark(store, nonce);
    UsedStaysUsed(MarkedUsed(store, nonce), ops, issued, nonce);
  }

  /** A header that does not decode is rejected as malformed and changes nothing. */
  lemma MalformedHeaderRejected(header: string, decode: string -> Option<PaymentPayload>, store: Store, now: int, ledger: Ledger)
    requires decode(header) == None
    ensures Verdict(header, decode, store, now, ledger) == Invalid(InvalidFormatReason)
    ensures StoreAfter(header, decode, store, now, ledger) == store
  {
  }

  /** Only an admitted proof changes the store, and then only its nonce's flag. */
  lemma StoreChangesOnlyOnAdmission(header: string, decode: string -> Option<PaymentPayload>, store: Store, now: int, ledger: Ledger)
    ensures var after := StoreAfter(header, decode, store, now, ledger);
      && after.Keys == store.Keys
      && (forall k :: k in after ==> after[k].timestamp == store[k].timestamp)
      && (Verdict(header, decode, store, now, ledger).Valid? ==>
            var nonce := decode(header).value.paymentRequirements.nonce;
            nonce in store && !store[nonce].used && after[nonce].used
            && forall k :: k in after && k != nonce ==> after[k] == store[k])
  {
  }

  /**
   * One client's sequence through the handler on a fresh store: a request
   * without a proof gets the challenge; the proof embedding that challenge
   * and naming a confirmed transfer of at least the price to the configured
   * recipient, sent before the nonce expires, is admitted; sending the same
   * proof again is rejected as a replay.
   */
  method PaidRequestScenario(options: Options, env: Env, nonce: string, issuedAt: int, paidAt: int, replayAt: int,
                             txId: string, ledger: Ledger, signature: string, publicKey: string)
    returns (challenge: Response, admitted: Response, replayed: Response)
    requires GetPrice(options.modelType).Success?
    requires txId != ""
    requires paidAt - issuedAt < NonceTtlMs
    requires var tx := VerifyTransaction(txId, ledger);
      && tx.TxSuccess? && tx.amount.Num? && tx.amount.value >= GetPrice(options.modelType).value.basePrice
      && tx.recipient == env.paymentRecipientAddress
    ensures challenge.Reply? && challenge.status == 402 && challenge.body.ChallengeBody?
    ensures challenge.body.paymentRequirements.nonce == nonce
    ensures admitted.Next? && admitted.paymentInfo.txId == txId
    ensures replayed == Reply(403, RejectionBody(VerificationFailedMessage, ReplayReason))
  {
    var nonces := new NonceManager();
    challenge := RequirePayment(nonces, options, env, None, _ => None, nonce, issuedAt, ledger);
    var price := GetPrice(options.modelType).value.basePrice;
    var requirements := challenge.body.paymentRequirements;
    var payload := PaymentPayload(requirements, signature, publicKey, Some(txId));
    var decode: string -> Option<PaymentPayload> := header => if header == "proof" then Some(payload) else None;
    ChallengeRoundTrip(options, env, nonce, price, issuedAt, nonces.inMemoryStore, paidAt, txId, ledger, signature, publicKey);
    ghost var issuedStore := nonces.inMemoryStore;
    admitted := RequirePayment(nonces, options, env, Some("proof"), decode, "", paidAt, ledger);
    ReplayRejectedForever(payload, issuedStore, paidAt, ledger, issuedStore.Keys, [], payload, replayAt, ledger);
    replayed := RequirePayment(nonces, options, env, Some("proof"), decode, "", replayAt, ledger);
  }
}
