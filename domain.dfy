/**
 * The domain entities of the transaction service: identifiers, the transaction
 * hierarchy (modelled as one tagged datatype), clients and the error kinds the
 * engine raises.
 */
module Domain {
  import opened Wrappers

  /** A `Guid` is a 128-bit value; 0 is `Guid.Empty`. */
  const GUID_LIMIT: int := 0x1_0000_0000_0000_0000_0000_0000_0000_0000
  type Guid = g: int | 0 <= g < GUID_LIMIT
  const EmptyGuid: Guid := 0

  /** A `DateTime` is a tick count; 0 is `default(DateTime)`, the largest is `DateTime.MaxValue`. */
  const MAX_TICKS: int := 3155378975999999999
  type DateTime = t: int | 0 <= t <= MAX_TICKS
  const DefaultDateTime: DateTime := 0

  /** Amounts are stored as `decimal(18,2)`; the model counts them in hundredths. */
  type Money = int

  datatype TransactionType = Credit | Debit | Revert

  /**
   * A ledger entry. The three constructors are the three subclasses of the
   * abstract `Transaction`; only a revert carries `revertedTransactionId`.
   * Credit and debit amounts are magnitudes; a revert's amount is signed.
   */
  datatype Transaction =
    | CreditTransaction(id: Guid, clientId: Guid, amount: Money, dateTime: DateTime)
    | DebitTransaction(id: Guid, clientId: Guid, amount: Money, dateTime: DateTime)
    | RevertTransaction(id: Guid, clientId: Guid, amount: Money, dateTime: DateTime, revertedTransactionId: Option<Guid>)
  {
    /** The `Type` discriminator each subclass constructor fixes. */
    function Type(): (k: TransactionType)
      ensures k == Credit <==> this.CreditTransaction?
      ensures k == Debit <==> this.DebitTransaction?
      ensures k == Revert <==> this.RevertTransaction?
    {
      match this
      case CreditTransaction(_, _, _, _) => Credit
      case DebitTransaction(_, _, _, _) => Debit
      case RevertTransaction(_, _, _, _, _) => Revert
    }

    /** The reverted id as the table column sees it: null for every row that is not a revert. */
    function RevertedId(): (r: Option<Guid>)
      ensures r.Some? ==> Type() == Revert
      ensures this.RevertTransaction? ==> r == this.revertedTransactionId
    {
      if this.RevertTransaction? then this.revertedTransactionId else None
    }
  }

  /** A client row: its id and running balance. */
  datatype Client = Client(id: Guid, balance: Money)

  /** The failures of the engine, one per exception it raises. */
  datatype Error =
    | TransactionNotFound(transactionId: Guid)                 // KeyNotFoundException from a revert
    | ClientNotFound(clientId: Guid)                           // KeyNotFoundException from a balance query
    | InvalidReversal(transactionId: Guid)                     // InvalidOperationException: target is a revert
    | InsufficientFunds(currentBalance: Money, requested: Money) // InvalidOperationException: funds check
    | Duplicate(duplicateId: Guid)                             // DuplicateTransactionException
    | StoreFailure                                             // any other DbUpdateException
}
