/** The request and response shapes of the four operations. */
module Dtos {
  import opened Domain

  datatype TransactionRequest = TransactionRequest(id: Guid, clientId: Guid, dateTime: DateTime, amount: Money)

  datatype TransactionResponse = TransactionResponse(insertDateTime: DateTime, clientBalance: Money)

  datatype RevertResponse = RevertResponse(revertDateTime: DateTime, clientBalance: Money)

  datatype BalanceResponse = BalanceResponse(balanceDateTime: DateTime, clientBalance: Money)
}
