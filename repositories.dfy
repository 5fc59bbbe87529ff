/**
 * The repositories over the shared context. `BaseRepository`'s
 * `ExecuteInTransactionAsync` runs a caller-supplied operation inside a unit of
 * work; the model splits it around that operation into `EnterTransaction`
 * (reuse the open transaction, or begin one) and `LeaveTransaction` (save, and
 * commit what it began; or, after a failure, roll back what it began).
 */
module Repositories {
  import opened Wrappers
  import opened Domain
  import opened Ledger
  import opened Data

  /** Whether a call joined the transaction already open on the context or began its own. */
  datatype Scope = Joined | Owned(level: IsolationLevel)

  function Saves(n: nat): (s: seq<DbEvent>)
    ensures |s| == n && forall i :: 0 <= i < n ==> s[i] == Saved
  {
    if n == 0 then [] else [Saved] + Saves(n - 1)
  }

  /** The events `LeaveTransaction` adds. */
  function ExitEvents(scope: Scope, failed: bool): seq<DbEvent>
  {
    match scope
    case Joined => if failed then [] else [Saved]
    case Owned(_) => if failed then [RolledBack] else [Saved, Committed]
  }

  /**
   * The journal of one `ExecuteInTransactionAsync` call (either overload) whose
   * operation saves `saves` times: `began` says no transaction was open at the call.
   */
  function UnitOfWorkTrace(began: bool, level: IsolationLevel, saves: nat, failed: bool): (trace: seq<DbEvent>)
    // One begin if it began, the operation's saves, then a save and a commit, a rollback, a save, or nothing.
    ensures |trace| == (if began then 1 else 0) + saves + (if began then (if failed then 1 else 2) else (if failed then 0 else 1))
  {
    (if began then [Begun(level)] else []) + Saves(saves) + ExitEvents(if began then Owned(level) else Joined, failed)
  }

  /**
   * The shape of a unit of work's journal: it begins a transaction exactly when
   * none was open, commits exactly when it began one and its operation
   * succeeded, rolls back exactly when it began one and the operation failed;
   * between them there are only saves, and an operation that joined an open
   * transaction only saves.
   */
  lemma UnitOfWorkTraceShape(began: bool, level: IsolationLevel, saves: nat, failed: bool)
    ensures var trace := UnitOfWorkTrace(began, level, saves, failed);
            && ((|trace| > 0 && trace[0] == Begun(level)) <==> began)
            && (Committed in trace <==> began && !failed)
            && (RolledBack in trace <==> began && failed)
            && (!began ==> forall e :: e in trace ==> e == Saved)
            && (began && !failed ==> |trace| >= 2 && trace[|trace| - 2..] == [Saved, Committed])
            && (began && failed ==> trace[|trace| - 1] == RolledBack)
            && (began ==> forall i :: 0 < i < |trace| - 1 ==> trace[i] == Saved)
  {
  }

  /** The first half of `ExecuteInTransactionAsync`: reuse `CurrentTransaction` if there is one, else begin one at `level`. */
  method EnterTransaction(db: BankDbContext, level: IsolationLevel) returns (scope: Scope)
    modifies db`currentTransaction, db`log
    ensures old(db.currentTransaction).Some? ==> scope == Joined && db.currentTransaction == old(db.currentTransaction) && db.log == old(db.log)
    ensures old(db.currentTransaction).None? ==>
              && scope == Owned(level)
              && db.currentTransaction == Some(DbTransaction(level, db.Rows()))
              && db.log == old(db.log) + [Begun(level)]
  {
    if db.currentTransaction.Some? {
      scope := Joined;
    } else {
      db.BeginTransaction(level);
      scope := Owned(level);
    }
  }

  /**
   * The second half: after the operation succeeded, save and, if this call began
   * the transaction, commit it; after it failed, roll back only what this call began.
   */
  method LeaveTransaction(db: BankDbContext, scope: Scope, failed: bool)
    requires db.currentTransaction.Some?
    modifies db
    ensures db.log == old(db.log) + ExitEvents(scope, failed)
    ensures scope.Joined? ==> db.currentTransaction == old(db.currentTransaction)
    ensures scope.Owned? ==> db.currentTransaction == None
    ensures scope.Owned? && failed ==> db.Rows() == old(db.currentTransaction.value.atBegin)
    ensures !(scope.Owned? && failed) ==> db.Rows() == old(db.Rows())
  {
    if failed {
      if scope.Owned? {
        db.Rollback();
      }
    } else {
      db.SaveChanges();
      if scope.Owned? {
        db.Commit();
      }
    }
  }

  class TransactionRepository {
    const context: BankDbContext

    constructor (context: BankDbContext)
      ensures this.context == context
    {
      this.context := context;
    }

    /** The entry with this id, restricted to the subtype `ofType` names (None: any), or null. */
    function GetTransactionById(id: Guid, ofType: Option<TransactionType>): (r: Option<Transaction>)
      reads context
      ensures r.Some? ==> r.value in context.transactions && r.value.id == id
      ensures r.Some? && ofType.Some? ==> r.value.Type() == ofType.value
      ensures r.None? <==> forall t :: t in context.transactions && t.id == id ==> ofType.Some? && t.Type() != ofType.value
    {
      FirstOrDefault(context.transactions, WithId(id, ofType))
    }

    /** The revert entry whose `RevertedTransactionId` is `revertedTransactionId`, or null. */
    function GetRevertTransactionByRevertedId(revertedTransactionId: Guid): (r: Option<Transaction>)
      reads context
      ensures r.Some? ==> r.value in context.transactions && r.value.RevertTransaction?
                          && r.value.revertedTransactionId == Some(revertedTransactionId)
      ensures r.None? <==> forall t :: t in context.transactions && t.RevertTransaction? ==> t.revertedTransactionId != Some(revertedTransactionId)
    {
      FindRevertOf(context.transactions, revertedTransactionId)
    }

    /**
     * Add the entry and save. A primary-key or unique-index violation becomes a
     * duplicate error with the entry's id; any other rejection propagates as it is.
     */
    method AddTransaction(transaction: Transaction) returns (outcome: Outcome<Error>)
      modifies context`transactions, context`log
      ensures outcome == match AddFailure(old(context.transactions), transaction)
                         case None => Pass
                         case Some(e) => Fail(e)
      ensures context.transactions == if outcome.Pass? then old(context.transactions) + [transaction] else old(context.transactions)
      ensures context.log == old(context.log) + [Saved]
    {
      var violation := AddFailure(context.transactions, transaction);
      if violation.None? {
        context.transactions := context.transactions + [transaction];
      }
      context.SaveChanges();
      outcome := if violation.None? then Pass else Fail(violation.value);
    }
  }

  class ClientRepository {
    const context: BankDbContext

    constructor (context: BankDbContext)
      ensures this.context == context
    {
      this.context := context;
    }

    /** The client row with this id, or null; never creates one. */
    function GetById(id: Guid): (r: Option<Client>)
      reads context
      ensures r.None? <==> id !in context.clients
      ensures r.Some? ==> r.value.id == id && r.value.balance == context.clients[id]
    {
      if id in context.clients then Some(Client(id, context.clients[id])) else None
    }

    /** The client row with this id, added with balance 0 when there is none. */
    method GetOrCreate(id: Guid) returns (client: Client)
      modifies context`clients
      ensures client.id == id
      ensures id in old(context.clients) ==> client.balance == old(context.clients[id]) && context.clients == old(context.clients)
      ensures id !in old(context.clients) ==> client.balance == 0 && context.clients == old(context.clients)[id := 0]
    {
      var found := GetById(id);
      if found.Some? {
        client := found.value;
      } else {
        client := Client(id, 0);
        context.clients := context.clients[id := 0];
      }
    }

    /** Add `amount` to the client's balance (creating the row at 0), save, and return the new balance. */
    method AdjustBalance(clientId: Guid, amount: Money) returns (newBalance: Money)
      modifies context`clients, context`log
      ensures newBalance == StoredBalance(old(context.clients), clientId) + amount
      ensures context.clients == old(context.clients)[clientId := newBalance]
      ensures context.log == old(context.log) + [Saved]
    {
      var client := GetOrCreate(clientId);
      newBalance := client.balance + amount;
      context.clients := context.clients[clientId := newBalance];
      context.SaveChanges();
    }
  }
}
