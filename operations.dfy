/**
 * The four operations of `TransactionApplicationService` as functions from
 * the two tables to a result and the new tables. The methods of
 * `Application.TransactionApplicationService` are proved to compute exactly
 * these; the lemmas of `Properties` are proved about them.
 */
module Operations {
  import opened Wrappers
  import opened Domain
  import opened Ledger
  import opened Dtos

  /** `CreateIdempotentResponse`: the existing record's time and its client's current balance. */
  function IdempotentResponse(s: Store, existing: Transaction): (r: TransactionResponse)
    ensures r.insertDateTime == existing.dateTime
    ensures r.clientBalance == StoredBalance(s.balances, existing.clientId)
  {
    TransactionResponse(existing.dateTime, StoredBalance(s.balances, existing.clientId))
  }

  /**
   * Append `t` and move its client's balance by `t`'s signed amount, giving the
   * new balance; when a table constraint rejects the append, its error and no change.
   */
  function Book(s: Store, t: Transaction): (o: (Result<Money, Error>, Store))
    ensures o.0.Failure? <==> AddFailure(s.ledger, t).Some?
    ensures o.0.Failure? ==> o == (Failure(AddFailure(s.ledger, t).value), s)
    ensures o.0.Success? ==>
              && o.0.value == StoredBalance(s.balances, t.clientId) + SignedAmount(t)
              && o.1 == Store(s.ledger + [t], s.balances[t.clientId := o.0.value])
  {
    match AddFailure(s.ledger, t)
    case Some(e) => (Failure(e), s)
    case None =>
      var balance := StoredBalance(s.balances, t.clientId) + SignedAmount(t);
      (Success(balance), Store(s.ledger + [t], s.balances[t.clientId := balance]))
  }

  function AsTransactionResponse(booked: Result<Money, Error>, at: DateTime): Result<TransactionResponse, Error>
  {
    match booked
    case Success(balance) => Success(TransactionResponse(at, balance))
    case Failure(e) => Failure(e)
  }

  function AsRevertResponse(booked: Result<Money, Error>, at: DateTime): Result<RevertResponse, Error>
  {
    match booked
    case Success(balance) => Success(RevertResponse(at, balance))
    case Failure(e) => Failure(e)
  }

  /** The work `CreditAsync` runs inside its unit of work: book a credit of the amount; a failure changes nothing. */
  function ApplyCredit(s: Store, request: TransactionRequest, now: DateTime): (o: (Result<TransactionResponse, Error>, Store))
    ensures o.0.Failure? ==> o.1 == s
    // An id taken meanwhile: the primary key rejects the append.
    ensures FindById(s.ledger, request.id).Some? ==> o == (Failure(Duplicate(request.id)), s)
    // Otherwise one credit stamped `now` is appended and its client's balance rises by the amount.
    ensures FindById(s.ledger, request.id).None? ==>
              var balance := StoredBalance(s.balances, request.clientId) + request.amount;
              o == (Success(TransactionResponse(now, balance)),
                    Store(s.ledger + [CreditTransaction(request.id, request.clientId, request.amount, now)],
                          s.balances[request.clientId := balance]))
  {
    var (booked, after) := Book(s, CreditTransaction(request.id, request.clientId, request.amount, now));
    (AsTransactionResponse(booked, now), after)
  }

  function Credit(s: Store, request: TransactionRequest, now: DateTime): (o: (Result<TransactionResponse, Error>, Store))
    // An id already in the ledger, of any type: nothing changes and the existing record is replayed.
    ensures FindById(s.ledger, request.id).Some? ==>
              var existing := FindById(s.ledger, request.id).value;
              o == (Success(TransactionResponse(existing.dateTime, StoredBalance(s.balances, existing.clientId))), s)
    // A new id: one credit record is appended and only that client's balance rises, by exactly the amount.
    ensures FindById(s.ledger, request.id).None? ==>
              var balance := StoredBalance(s.balances, request.clientId) + request.amount;
              && o.0 == Success(TransactionResponse(now, balance))
              && o.1.ledger == s.ledger + [CreditTransaction(request.id, request.clientId, request.amount, now)]
              && o.1.balances == s.balances[request.clientId := balance]
  {
    match FindById(s.ledger, request.id)
    case Some(existing) => (Success(IdempotentResponse(s, existing)), s)
    case None =>
      ApplyCredit(s, request, now)
  }

  /** The work `DebitAsync` runs inside its unit of work: the funds check, then book a debit; a failure changes nothing. */
  function ApplyDebit(s: Store, request: TransactionRequest, now: DateTime): (o: (Result<TransactionResponse, Error>, Store))
    ensures o.0.Failure? ==> o.1 == s
    ensures StoredBalance(s.balances, request.clientId) < request.amount ==>
              o == (Failure(InsufficientFunds(StoredBalance(s.balances, request.clientId), request.amount)), s)
    ensures StoredBalance(s.balances, request.clientId) >= request.amount && FindById(s.ledger, request.id).Some? ==>
              o == (Failure(Duplicate(request.id)), s)
    ensures StoredBalance(s.balances, request.clientId) >= request.amount && FindById(s.ledger, request.id).None? ==>
              var balance := StoredBalance(s.balances, request.clientId) - request.amount;
              o == (Success(TransactionResponse(now, balance)),
                    Store(s.ledger + [DebitTransaction(request.id, request.clientId, request.amount, now)],
                          s.balances[request.clientId := balance]))
  {
    var current := StoredBalance(s.balances, request.clientId);
    if !(current >= request.amount) then
      (Failure(InsufficientFunds(current, request.amount)), s)
    else
      var (booked, after) := Book(s, DebitTransaction(request.id, request.clientId, request.amount, now));
      (AsTransactionResponse(booked, now), after)
  }

  function Debit(s: Store, request: TransactionRequest, now: DateTime): (o: (Result<TransactionResponse, Error>, Store))
    ensures FindById(s.ledger, request.id).Some? ==>
              var existing := FindById(s.ledger, request.id).value;
              o == (Success(TransactionResponse(existing.dateTime, StoredBalance(s.balances, existing.clientId))), s)
    // A new id and too little money: insufficient funds, nothing changes.
    ensures FindById(s.ledger, request.id).None? && StoredBalance(s.balances, request.clientId) < request.amount ==>
              o == (Failure(InsufficientFunds(StoredBalance(s.balances, request.clientId), request.amount)), s)
    // A new id and enough money: one debit record, the balance falls by exactly the amount and stays non-negative.
    ensures FindById(s.ledger, request.id).None? && StoredBalance(s.balances, request.clientId) >= request.amount ==>
              var balance := StoredBalance(s.balances, request.clientId) - request.amount;
              && balance >= 0
              && o.0 == Success(TransactionResponse(now, balance))
              && o.1.ledger == s.ledger + [DebitTransaction(request.id, request.clientId, request.amount, now)]
              && o.1.balances == s.balances[request.clientId := balance]
  {
    match FindById(s.ledger, request.id)
    case Some(existing) => (Success(IdempotentResponse(s, existing)), s)
    case None => ApplyDebit(s, request, now)
  }

  /** The compensating entry for `original`, booked under the fresh id `revertId`. */
  function CompensatingEntry(original: Transaction, revertId: Guid, now: DateTime): (r: Transaction)
    ensures r.RevertTransaction? && r.id == revertId && r.dateTime == now
    ensures r.clientId == original.clientId && r.revertedTransactionId == Some(original.id)
    // It cancels the original: a credit is taken back, a debit is given back.
    ensures !original.RevertTransaction? ==> SignedAmount(r) == -SignedAmount(original)
  {
    RevertTransaction(revertId, original.clientId,
                      if original.Type() == TransactionType.Credit then -original.amount else original.amount,
                      now, Some(original.id))
  }

  /**
   * The work `RevertAsync` runs inside its unit of work: find the target, refuse
   * a revert of a revert and, for a credit, a balance below its amount, then book
   * the compensating entry; a failure changes nothing.
   */
  function ApplyRevert(s: Store, transactionId: Guid, revertId: Guid, now: DateTime): (o: (Result<RevertResponse, Error>, Store))
    ensures o.0.Failure? ==> o.1 == s
    ensures FindById(s.ledger, transactionId).None? ==> o == (Failure(TransactionNotFound(transactionId)), s)
    ensures FindById(s.ledger, transactionId).Some? ==>
              var original := FindById(s.ledger, transactionId).value;
              var current := StoredBalance(s.balances, original.clientId);
              && (original.RevertTransaction? ==> o == (Failure(InvalidReversal(transactionId)), s))
              && (original.CreditTransaction? && current < original.amount ==>
                    o == (Failure(InsufficientFunds(current, original.amount)), s))
              // The booking: a taken fresh id, or a revert of the target filed meanwhile, is a duplicate of the fresh id.
              && (!original.RevertTransaction? && !(original.CreditTransaction? && current < original.amount) ==>
                    if FindById(s.ledger, revertId).Some? || FindRevertOf(s.ledger, transactionId).Some? then
                      o == (Failure(Duplicate(revertId)), s)
                    else
                      var balance := current - SignedAmount(original);
                      o == (Success(RevertResponse(now, balance)),
                            Store(s.ledger + [RevertTransaction(revertId, original.clientId, -SignedAmount(original), now, Some(transactionId))],
                                  s.balances[original.clientId := balance])))
  {
    match FindById(s.ledger, transactionId)
    case None => (Failure(TransactionNotFound(transactionId)), s)
    case Some(original) =>
      if original.Type() == TransactionType.Revert then
        (Failure(InvalidReversal(transactionId)), s)
      else if original.Type() == TransactionType.Credit && !(StoredBalance(s.balances, original.clientId) >= original.amount) then
        (Failure(InsufficientFunds(StoredBalance(s.balances, original.clientId), original.amount)), s)
      else
        var (booked, after) := Book(s, CompensatingEntry(original, revertId, now));
        (AsRevertResponse(booked, now), after)
  }

  /** Revert the entry `transactionId`; `revertId` plays the part of `Guid.NewGuid()`. */
  function Revert(s: Store, transactionId: Guid, revertId: Guid, now: DateTime): (o: (Result<RevertResponse, Error>, Store))
    // The target already has a revert: nothing changes and that revert is replayed.
    ensures FindRevertOf(s.ledger, transactionId).Some? ==>
              var existing := FindRevertOf(s.ledger, transactionId).value;
              o == (Success(RevertResponse(existing.dateTime, StoredBalance(s.balances, existing.clientId))), s)
    ensures FindRevertOf(s.ledger, transactionId).None? && FindById(s.ledger, transactionId).None? ==>
              o == (Failure(TransactionNotFound(transactionId)), s)
    ensures FindRevertOf(s.ledger, transactionId).None? && FindById(s.ledger, transactionId).Some? ==>
              var original := FindById(s.ledger, transactionId).value;
              var current := StoredBalance(s.balances, original.clientId);
              && (original.RevertTransaction? ==> o == (Failure(InvalidReversal(transactionId)), s))
              && (original.CreditTransaction? && current < original.amount ==>
                    o == (Failure(InsufficientFunds(current, original.amount)), s))
              // A debit is reverted without a funds check; a collision of the fresh id fails the append.
              && (!original.RevertTransaction? && !(original.CreditTransaction? && current < original.amount) ==>
                    if FindById(s.ledger, revertId).Some? then
                      o == (Failure(Duplicate(revertId)), s)
                    else
                      var balance := current - SignedAmount(original);
                      && o.0 == Success(RevertResponse(now, balance))
                      && o.1.ledger == s.ledger + [RevertTransaction(revertId, original.clientId, -SignedAmount(original), now, Some(transactionId))]
                      && o.1.balances == s.balances[original.clientId := balance])
  {
    match FindRevertOf(s.ledger, transactionId)
    case Some(existing) => (Success(RevertResponse(existing.dateTime, StoredBalance(s.balances, existing.clientId))), s)
    case None => ApplyRevert(s, transactionId, revertId, now)
  }

  function GetBalance(s: Store, clientId: Guid, now: DateTime): (r: Result<BalanceResponse, Error>)
    ensures clientId !in s.balances ==> r == Failure(ClientNotFound(clientId))
    ensures clientId in s.balances ==> r == Success(BalanceResponse(now, s.balances[clientId]))
  {
    if clientId in s.balances then Success(BalanceResponse(now, s.balances[clientId]))
    else Failure(ClientNotFound(clientId))
  }
}
