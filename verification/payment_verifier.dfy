/**
 * Classification of a ledger transaction into a payment verification, and the
 * polling loop that waits for one to confirm. The ledger API is abstracted to
 * the set of transactions it would return, keyed by transaction id; a lookup
 * of any other id fails.
 */
module PaymentVerifier {
  import opened Wrappers
  import opened JsNumbers

  datatype TokenTransfer = TokenTransfer(amount: string, recipientAddress: string)

  /** The fields of a ledger transaction that the verifier reads. */
  datatype LedgerTransaction = LedgerTransaction(
    txStatus: string,
    txType: string,
    tokenTransfer: Option<TokenTransfer>,
    senderAddress: string,
    burnBlockTime: int,
    blockHeight: int)

  /** What the transaction lookup answers; ids missing here make it throw. */
  type Ledger = map<string, LedgerTransaction>

  datatype TransactionVerification =
    | TxFailure(error: string)
    | TxSuccess(amount: JsNumber, recipient: string, sender: string, timestamp: int, blockHeight: int)

  const FetchFailedError := "Failed to fetch transaction"
  const NotTransferError := "Not a token transfer transaction"

  /**
   * `verifyTransaction`: a confirmed token transfer succeeds with its fields;
   * anything else fails with a reason. A transfer record without its
   * `token_transfer` part makes the source throw, which it reports as a
   * failed fetch.
   */
  function VerifyTransaction(txId: string, ledger: Ledger): (r: TransactionVerification)
    ensures r.TxFailure? ==> r.error != ""
    ensures r.TxSuccess? <==>
      && txId in ledger
      && ledger[txId].txStatus == "success"
      && ledger[txId].txType == "token_transfer"
      && ledger[txId].tokenTransfer.Some?
    ensures r.TxSuccess? ==>
      var tx := ledger[txId];
      && r.amount == ParseInt(tx.tokenTransfer.value.amount)
      && r.recipient == tx.tokenTransfer.value.recipientAddress
      && r.sender == tx.senderAddress
      && r.timestamp == tx.burnBlockTime
      && r.blockHeight == tx.blockHeight
  {
    if txId !in ledger then TxFailure(FetchFailedError)
    else
      var tx := ledger[txId];
      if tx.txStatus != "success" then TxFailure("Transaction status: " + tx.txStatus)
      else if tx.txType != "token_transfer" then TxFailure(NotTransferError)
      else if tx.tokenTransfer.None? then TxFailure(FetchFailedError)
      else
        TxSuccess(ParseInt(tx.tokenTransfer.value.amount), tx.tokenTransfer.value.recipientAddress,
                  tx.senderAddress, tx.burnBlockTime, tx.blockHeight)
  }

  /** The three failure reasons, and which condition produces each. */
  lemma FailureReasons(txId: string, ledger: Ledger)
    ensures txId !in ledger ==> VerifyTransaction(txId, ledger) == TxFailure(FetchFailedError)
    ensures txId in ledger && ledger[txId].txStatus != "success" ==>
      VerifyTransaction(txId, ledger) == TxFailure("Transaction status: " + ledger[txId].txStatus)
    ensures txId in ledger && ledger[txId].txStatus == "success" && ledger[txId].txType != "token_transfer" ==>
      VerifyTransaction(txId, ledger) == TxFailure(NotTransferError)
  {
  }

  /** The interval between two polls, in milliseconds. */
  const PollIntervalMs: nat := 5000

  /** The default time budget of `waitForConfirmation`, in milliseconds. */
  const DefaultMaxWaitMs: nat := 60000

  /**
   * The clock reading at the k-th poll when polling starts at `start`: each
   * round sleeps the poll interval, plus `delay(t)`, the extra time the lookup
   * and the timer take when the round starts at `t`.
   */
  function PollTime(start: int, delay: int -> nat, k: nat): int
  {
    if k == 0 then start
    else
      var t := PollTime(start, delay, k - 1);
      t + PollIntervalMs + delay(t)
  }

  lemma {:induction false} PollTimeMonotone(start: int, delay: int -> nat, i: nat, j: nat)
    requires i <= j
    ensures PollTime(start, delay, i) + (j - i) * PollIntervalMs <= PollTime(start, delay, j)
    decreases j
  {
    if i < j {
      PollTimeMonotone(start, delay, i, j - 1);
    }
  }

  /** The transaction has confirmed in the ledger as seen at time `t`. */
  predicate ConfirmedAt(txId: string, ledgerAt: int -> Ledger, t: int)
  {
    VerifyTransaction(txId, ledgerAt(t)).TxSuccess?
  }

  /**
   * When the k-th poll is already outside the budget and none before it saw
   * the transaction confirmed, no poll inside the budget did.
   */
  lemma BudgetExhausted(txId: string, maxWaitTime: int, start: int, ledgerAt: int -> Ledger, delay: int -> nat, k: nat)
    requires PollTime(start, delay, k) - start >= maxWaitTime
    requires forall j: nat :: j < k ==> !ConfirmedAt(txId, ledgerAt, PollTime(start, delay, j))
    ensures !exists j: nat :: PollTime(start, delay, j) - start < maxWaitTime && ConfirmedAt(txId, ledgerAt, PollTime(start, delay, j))
  {
    forall j: nat | PollTime(start, delay, j) - start < maxWaitTime
      ensures !ConfirmedAt(txId, ledgerAt, PollTime(start, delay, j))
    {
      if k <= j {
        PollTimeMonotone(start, delay, k, j);
      }
    }
  }

  /**
   * `waitForConfirmation`: polls the ledger, as it stands at each clock
   * reading, until the transaction verifies or `maxWaitTime` milliseconds
   * have passed since `start`. The answer is true exactly when some poll
   * inside the budget saw the transaction confirmed.
   */
  method WaitForConfirmation(txId: string, start: int, ledgerAt: int -> Ledger, delay: int -> nat,
                             maxWaitTime: int := DefaultMaxWaitMs)
    returns (confirmed: bool)
    ensures confirmed <==>
      exists k: nat :: PollTime(start, delay, k) - start < maxWaitTime && ConfirmedAt(txId, ledgerAt, PollTime(start, delay, k))
  {
    var now := start;
    ghost var polls: nat := 0;
    while now - start < maxWaitTime
      invariant now == PollTime(start, delay, polls)
      invariant forall j: nat :: j < polls ==> !ConfirmedAt(txId, ledgerAt, PollTime(start, delay, j))
      decreases maxWaitTime - (now - start)
    {
      var result := VerifyTransaction(txId, ledgerAt(now));
      if result.TxSuccess? {
        assert ConfirmedAt(txId, ledgerAt, PollTime(start, delay, polls));
        return true;
      }
      now := now + PollIntervalMs + delay(now);
      polls := polls + 1;
    }
    BudgetExhausted(txId, maxWaitTime, start, ledgerAt, delay, polls);
    confirmed := false;
  }
}
