/** `ClientService`: balance reads and the funds check over the client repository, and a balance adjustment inside a unit of work. */
module Services {
  import opened Wrappers
  import opened Domain
  import opened Ledger
  import opened Data
  import opened Repositories

  class ClientService {
    const clientRepository: ClientRepository

    constructor (clientRepository: ClientRepository)
      ensures this.clientRepository == clientRepository
    {
      this.clientRepository := clientRepository;
    }

    /** The stored balance, or 0 for a client without a row. */
    function GetBalance(clientId: Guid): (balance: Money)
      reads clientRepository.context
      ensures clientId in clientRepository.context.clients ==> balance == clientRepository.context.clients[clientId]
      ensures clientId !in clientRepository.context.clients ==> balance == 0
    {
      match clientRepository.GetById(clientId)
      case Some(client) => client.balance
      case None => 0
    }

    /** The client row, or null. */
    function GetClient(clientId: Guid): (r: Option<Client>)
      reads clientRepository.context
      ensures r.None? <==> clientId !in clientRepository.context.clients
      ensures r.Some? ==> r.value == Client(clientId, clientRepository.context.clients[clientId])
    {
      clientRepository.GetById(clientId)
    }

    /** Whether the balance, reading an unknown client as 0, covers `amount`. */
    function HasSufficientFunds(clientId: Guid, amount: Money): (r: bool)
      reads clientRepository.context
      ensures clientId in clientRepository.context.clients ==> (r <==> clientRepository.context.clients[clientId] >= amount)
      ensures clientId !in clientRepository.context.clients ==> (r <==> amount <= 0)
    {
      var client := clientRepository.GetById(clientId);
      (if client.Some? then client.value.balance else 0) >= amount
    }

    /** The repository's adjustment, run in a serializable unit of work (joined when one is open). */
    method AdjustBalance(clientId: Guid, amount: Money) returns (newBalance: Money)
      modifies clientRepository.context
      ensures newBalance == StoredBalance(old(clientRepository.context.clients), clientId) + amount
      ensures clientRepository.context.clients == old(clientRepository.context.clients)[clientId := newBalance]
      ensures clientRepository.context.transactions == old(clientRepository.context.transactions)
      ensures clientRepository.context.currentTransaction == old(clientRepository.context.currentTransaction)
      ensures clientRepository.context.log ==
                old(clientRepository.context.log) + UnitOfWorkTrace(old(clientRepository.context.currentTransaction).None?, Serializable, 1, false)
    {
      var db := clientRepository.context;
      var scope := EnterTransaction(db, Serializable);
      newBalance := clientRepository.AdjustBalance(clientId, amount);
      LeaveTransaction(db, scope, false);
    }
  }
}
