/**
 * The records exchanged by the payment gate: the challenge a client must pay
 * (`PaymentRequirements`), the proof it sends back (`PaymentPayload`) and the
 * gate's verdict on that proof (`PaymentVerificationResult`).
 */
module X402Types {
  import opened Wrappers
  import opened JsNumbers

  /** The only payment scheme: pay exactly the stated amount. */
  datatype Scheme = Exact

  datatype Asset = STX | SBTC | USDCx

  /** A challenge. `amount` is a decimal string in the asset's smallest unit. */
  datatype PaymentRequirements = PaymentRequirements(
    scheme: Scheme,
    network: string,
    asset: Asset,
    payTo: string,
    amount: string,
    resource: string,
    nonce: string,
    description: Option<string>,
    expiresAt: Option<int>)

  /**
   * A client's proof of payment: the challenge it answers, a signature and a
   * public key that the gate never checks, and the ledger transaction id.
   */
  datatype PaymentPayload = PaymentPayload(
    paymentRequirements: PaymentRequirements,
    signature: string,
    publicKey: string,
    txId: Option<string>)

  /** What an admitted request carries on to the protected handler. */
  datatype PaymentInfo = PaymentInfo(txId: string, amount: JsNumber, sender: string, timestamp: int)

  /** The verdict on a proof: a rejection with its reason, or the payment made. */
  datatype PaymentVerificationResult = Invalid(reason: string) | Valid(payment: PaymentInfo)
}
