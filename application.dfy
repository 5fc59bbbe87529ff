/**
 * `TransactionApplicationService`: credit, debit, revert and balance queries
 * over the two repositories, each mutating operation made idempotent by a
 * lookup before it and run in a serializable unit of work. The clock's "now"
 * and the fresh revert id are parameters.
 */
module Application {
  import opened Wrappers
  import opened Domain
  import opened Ledger
  import opened Data
  import opened Repositories
  import opened Services
  import opened Dtos
  import Operations

  /** How many times a booking saved: an append and a two-save adjustment, an append that failed, or nothing. */
  function SaveCount<T>(r: Result<T, Error>): nat
  {
    if r.Success? then 3 else if r.error.Duplicate? || r.error.StoreFailure? then 1 else 0
  }

  class TransactionApplicationService {
    const transactionRepository: TransactionRepository
    const clientService: ClientService

    constructor (transactionRepository: TransactionRepository, clientService: ClientService)
      requires transactionRepository.context == clientService.clientRepository.context
      ensures this.transactionRepository == transactionRepository && this.clientService == clientService
      ensures Valid()
    {
      this.transactionRepository := transactionRepository;
      this.clientService := clientService;
    }

    /** The one context the repositories share. */
    function Db(): BankDbContext
    {
      transactionRepository.context
    }

    /** Both repositories work on the same context (one `BankDbContext` per request scope). */
    predicate Valid()
    {
      clientService.clientRepository.context == transactionRepository.context
    }

    method CreateIdempotentResponse(existing: Transaction) returns (response: TransactionResponse)
      requires Valid()
      ensures response.insertDateTime == existing.dateTime
      ensures response.clientBalance == StoredBalance(Db().clients, existing.clientId)
    {
      var balance := clientService.GetBalance(existing.clientId);
      response := TransactionResponse(existing.dateTime, balance);
    }

    /** Append `t` and adjust its client's balance by its signed amount, inside the unit of work already open. */
    method Book(t: Transaction) returns (booked: Result<Money, Error>)
      requires Valid()
      requires Db().currentTransaction.Some?
      modifies Db()
      ensures (booked, Db().Rows()) == Operations.Book(old(Db().Rows()), t)
      ensures Db().currentTransaction == old(Db().currentTransaction)
      ensures Db().log == old(Db().log) + Repositories.Saves(SaveCount(booked))
    {
      var added := transactionRepository.AddTransaction(t);
      if added.Fail? {
        booked := Failure(added.error);
        return;
      }
      var newBalance := clientService.AdjustBalance(t.clientId, SignedAmount(t));
      booked := Success(newBalance);
    }

    /** The operation `CreditAsync` hands to the unit of work. */
    method CreditInTransaction(request: TransactionRequest, now: DateTime) returns (r: Result<TransactionResponse, Error>)
      requires Valid()
      requires Db().currentTransaction.Some?
      modifies Db()
      ensures (r, Db().Rows()) == Operations.ApplyCredit(old(Db().Rows()), request, now)
      ensures Db().currentTransaction == old(Db().currentTransaction)
      ensures Db().log == old(Db().log) + Repositories.Saves(SaveCount(r))
    {
      var transaction := CreditTransaction(request.id, request.clientId, request.amount, now);
      var booked := Book(transaction);
      r := Operations.AsTransactionResponse(booked, now);
    }

    method Credit(request: TransactionRequest, now: DateTime) returns (r: Result<TransactionResponse, Error>)
      requires Valid()
      modifies Db()
      ensures (r, Db().Rows()) == Operations.Credit(old(Db().Rows()), request, now)
      ensures Db().currentTransaction == old(Db().currentTransaction)
      ensures FindById(old(Db().transactions), request.id).Some? ==> Db().log == old(Db().log)
      ensures FindById(old(Db().transactions), request.id).None? ==>
                Db().log == old(Db().log) + UnitOfWorkTrace(old(Db().currentTransaction).None?, Serializable, SaveCount(r), r.Failure?)
    {
      var existing := transactionRepository.GetTransactionById(request.id, None);
      if existing.Some? {
        var response := CreateIdempotentResponse(existing.value);
        r := Success(response);
        return;
      }
      var scope := EnterTransaction(Db(), Serializable);
      r := CreditInTransaction(request, now);
      LeaveTransaction(Db(), scope, r.Failure?);
    }

    /** The operation `DebitAsync` hands to the unit of work. */
    method DebitInTransaction(request: TransactionRequest, now: DateTime) returns (r: Result<TransactionResponse, Error>)
      requires Valid()
      requires Db().currentTransaction.Some?
      modifies Db()
      ensures (r, Db().Rows()) == Operations.ApplyDebit(old(Db().Rows()), request, now)
      ensures Db().currentTransaction == old(Db().currentTransaction)
      ensures Db().log == old(Db().log) + Repositories.Saves(SaveCount(r))
    {
      var hasFunds := clientService.HasSufficientFunds(request.clientId, request.amount);
      if !hasFunds {
        var currentBalance := clientService.GetBalance(request.clientId);
        r := Failure(InsufficientFunds(currentBalance, request.amount));
        return;
      }
      var transaction := DebitTransaction(request.id, request.clientId, request.amount, now);
      var booked := Book(transaction);
      r := Operations.AsTransactionResponse(booked, now);
    }

    method Debit(request: TransactionRequest, now: DateTime) returns (r: Result<TransactionResponse, Error>)
      requires Valid()
      modifies Db()
      ensures (r, Db().Rows()) == Operations.Debit(old(Db().Rows()), request, now)
      ensures Db().currentTransaction == old(Db().currentTransaction)
      ensures FindById(old(Db().transactions), request.id).Some? ==> Db().log == old(Db().log)
      ensures FindById(old(Db().transactions), request.id).None? ==>
                Db().log == old(Db().log) + UnitOfWorkTrace(old(Db().currentTransaction).None?, Serializable, SaveCount(r), r.Failure?)
    {
      var existing := transactionRepository.GetTransactionById(request.id, None);
      if existing.Some? {
        var response := CreateIdempotentResponse(existing.value);
        r := Success(response);
        return;
      }
      var scope := EnterTransaction(Db(), Serializable);
      r := DebitInTransaction(request, now);
      LeaveTransaction(Db(), scope, r.Failure?);
    }

    /** The operation `RevertAsync` hands to the unit of work. */
    method RevertInTransaction(transactionId: Guid, revertId: Guid, now: DateTime) returns (r: Result<RevertResponse, Error>)
      requires Valid()
      requires Db().currentTransaction.Some?
      modifies Db()
      ensures (r, Db().Rows()) == Operations.ApplyRevert(old(Db().Rows()), transactionId, revertId, now)
      ensures Db().currentTransaction == old(Db().currentTransaction)
      ensures Db().log == old(Db().log) + Repositories.Saves(SaveCount(r))
    {
      var original := transactionRepository.GetTransactionById(transactionId, None);
      if original.None? {
        r := Failure(TransactionNotFound(transactionId));
        return;
      }
      var target := original.value;
      if target.Type() == TransactionType.Revert {
        r := Failure(InvalidReversal(transactionId));
        return;
      }
      if target.Type() == TransactionType.Credit {
        var hasFunds := clientService.HasSufficientFunds(target.clientId, target.amount);
        if !hasFunds {
          var currentBalance := clientService.GetBalance(target.clientId);
          r := Failure(InsufficientFunds(currentBalance, target.amount));
          return;
        }
      }
      var revertTransaction := RevertTransaction(revertId, target.clientId,
                                                 if target.Type() == TransactionType.Credit then -target.amount else target.amount,
                                                 now, Some(transactionId));
      var booked := Book(revertTransaction);
      r := Operations.AsRevertResponse(booked, now);
    }

    /** `ExecuteInTransactionAsync` of the revert lambda at serializable isolation. */
    method RevertInUnitOfWork(transactionId: Guid, revertId: Guid, now: DateTime) returns (r: Result<RevertResponse, Error>)
      requires Valid()
      modifies Db()
      ensures (r, Db().Rows()) == Operations.ApplyRevert(old(Db().Rows()), transactionId, revertId, now)
      ensures Db().currentTransaction == old(Db().currentTransaction)
      ensures Db().log == old(Db().log) + UnitOfWorkTrace(old(Db().currentTransaction).None?, Serializable, SaveCount(r), r.Failure?)
    {
      var scope := EnterTransaction(Db(), Serializable);
      r := RevertInTransaction(transactionId, revertId, now);
      LeaveTransaction(Db(), scope, r.Failure?);
    }

    /** Revert the entry `transactionId`; `revertId` is the fresh id `Guid.NewGuid()` would give. */
    method Revert(transactionId: Guid, revertId: Guid, now: DateTime) returns (r: Result<RevertResponse, Error>)
      requires Valid()
      modifies Db()
      ensures (r, Db().Rows()) == Operations.Revert(old(Db().Rows()), transactionId, revertId, now)
      ensures Db().currentTransaction == old(Db().currentTransaction)
      ensures FindRevertOf(old(Db().transactions), transactionId).Some? ==> Db().log == old(Db().log)
      ensures FindRevertOf(old(Db().transactions), transactionId).None? ==>
                Db().log == old(Db().log) + UnitOfWorkTrace(old(Db().currentTransaction).None?, Serializable, SaveCount(r), r.Failure?)
    {
      var existingRevert := transactionRepository.GetRevertTransactionByRevertedId(transactionId);
      if existingRevert.Some? {
        var balance := clientService.GetBalance(existingRevert.value.clientId);
        r := Success(RevertResponse(existingRevert.value.dateTime, balance));
        return;
      }
      r := RevertInUnitOfWork(transactionId, revertId, now);
    }

    method GetBalance(clientId: Guid, now: DateTime) returns (r: Result<BalanceResponse, Error>)
      requires Valid()
      ensures r == Operations.GetBalance(Db().Rows(), clientId, now)
    {
      var client := clientService.GetClient(clientId);
      if client.None? {
        r := Failure(ClientNotFound(clientId));
      } else {
        r := Success(BalanceResponse(now, client.value.balance));
      }
    }
  }
}
