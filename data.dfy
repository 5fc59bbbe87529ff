/**
 * The database context both repositories share: the two tables, the
 * database transaction currently open on the connection, and a journal of
 * the calls the engine makes on it (begin, save, commit, rollback).
 */
module Data {
  import opened Wrappers
  import opened Ledger

  datatype IsolationLevel = Unspecified | Chaos | ReadUncommitted | ReadCommitted | RepeatableRead | Serializable | Snapshot

  /** One call on the context's database facade. */
  datatype DbEvent = Begun(level: IsolationLevel) | Saved | Committed | RolledBack

  /** An open database transaction: its isolation level and the rows as they stood when it began. */
  datatype DbTransaction = DbTransaction(level: IsolationLevel, atBegin: Store)

  class BankDbContext {
    var transactions: seq<Domain.Transaction>
    var clients: map<Domain.Guid, Domain.Money>
    /** `Database.CurrentTransaction`. */
    var currentTransaction: Option<DbTransaction>
    /** Every begin, save, commit and rollback issued on this context, in order. */
    ghost var log: seq<DbEvent>

    function Rows(): Store
      reads this
    {
      Store(transactions, clients)
    }

    constructor ()
      ensures Rows() == Store([], map[])
      ensures currentTransaction == None && log == []
    {
      transactions, clients, currentTransaction := [], map[], None;
      log := [];
    }

    /** `Database.BeginTransactionAsync(level)`: the connection must not already be in a transaction. */
    method BeginTransaction(level: IsolationLevel)
      requires currentTransaction.None?
      modifies this`currentTransaction, this`log
      ensures currentTransaction == Some(DbTransaction(level, Rows()))
      ensures log == old(log) + [Begun(level)]
    {
      currentTransaction := Some(DbTransaction(level, Rows()));
      log := log + [Begun(level)];
    }

    /** `SaveChangesAsync`: writes reach the rows as they are made, so saving only marks the point. */
    method SaveChanges()
      modifies this`log
      ensures log == old(log) + [Saved]
    {
      log := log + [Saved];
    }

    /** Commit and dispose the open transaction: its writes stay. */
    method Commit()
      requires currentTransaction.Some?
      modifies this`currentTransaction, this`log
      ensures currentTransaction == None
      ensures log == old(log) + [Committed]
    {
      currentTransaction := None;
      log := log + [Committed];
    }

    /** Roll back and dispose the open transaction: the rows return to what they were at its begin. */
    method Rollback()
      requires currentTransaction.Some?
      modifies this
      ensures Rows() == old(currentTransaction.value.atBegin)
      ensures currentTransaction == None
      ensures log == old(log) + [RolledBack]
    {
      transactions := currentTransaction.value.atBegin.ledger;
      clients := currentTransaction.value.atBegin.balances;
      currentTransaction := None;
      log := log + [RolledBack];
    }
  }
}
