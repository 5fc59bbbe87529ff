/**
 * A walkthrough of the engine on one client (id 10), amounts in hundredths:
 * T1 credits 100.00 and a repeat changes nothing; T2's debit of 150.00 is
 * refused; T3's debit of 40.00 leaves 60.00; reverting T1 is refused for lack
 * of funds; reverting T3 restores 100.00 and a repeat replays it; an unknown
 * client has no balance.
 */
module Walkthrough {
  import opened Wrappers
  import opened Domain
  import opened Ledger
  import opened Dtos
  import Operations

  const T1 := TransactionRequest(1, 10, 5, 100_00)
  const T2 := TransactionRequest(2, 10, 5, 150_00)
  const T3 := TransactionRequest(3, 10, 5, 40_00)

  const C1 := CreditTransaction(1, 10, 100_00, 7)
  const D3 := DebitTransaction(3, 10, 40_00, 9)
  const R3 := RevertTransaction(100, 10, 40_00, 10, Some(3))

  const Empty := Store([], map[])
  const AfterT1 := Store([C1], map[10 := 100_00])
  const AfterT3 := Store([C1, D3], map[10 := 60_00])
  const AfterRevertT3 := Store([C1, D3, R3], map[10 := 100_00])

  lemma CreditThenRepeat()
    ensures Operations.Credit(Empty, T1, 7) == (Success(TransactionResponse(7, 100_00)), AfterT1)
    ensures Operations.Credit(AfterT1, T1, 8) == (Success(TransactionResponse(7, 100_00)), AfterT1)
  {
    assert Empty.ledger + [C1] == AfterT1.ledger;
    assert Empty.balances[10 := 100_00] == AfterT1.balances;
    assert FindById(AfterT1.ledger, 1) == Some(C1);
  }

  lemma DebitRefusedThenAccepted()
    ensures Operations.Debit(AfterT1, T2, 8) == (Failure(InsufficientFunds(100_00, 150_00)), AfterT1)
    ensures Operations.Debit(AfterT1, T3, 9) == (Success(TransactionResponse(9, 60_00)), AfterT3)
  {
    assert FindById(AfterT1.ledger, 2).None? && FindById(AfterT1.ledger, 3).None?;
    assert AfterT1.ledger + [D3] == AfterT3.ledger;
    assert AfterT1.balances[10 := 60_00] == AfterT3.balances;
  }

  lemma RevertOfCreditRefused()
    ensures Operations.Revert(AfterT3, 1, 100, 10) == (Failure(InsufficientFunds(60_00, 100_00)), AfterT3)
  {
    assert AfterT3.ledger == AfterT1.ledger + [D3];
    FirstOrDefaultAppend(AfterT1.ledger, D3, RevertOf(1));
    FirstOrDefaultAppend(AfterT1.ledger, D3, WithId(1, None));
  }

  lemma RevertOfDebitThenRepeat()
    ensures Operations.Revert(AfterT3, 3, 100, 10) == (Success(RevertResponse(10, 100_00)), AfterRevertT3)
    ensures Operations.Revert(AfterRevertT3, 3, 101, 11) == (Success(RevertResponse(10, 100_00)), AfterRevertT3)
    ensures Operations.GetBalance(AfterRevertT3, 99, 12) == Failure(ClientNotFound(99))
  {
    assert AfterT3.ledger == AfterT1.ledger + [D3];
    FirstOrDefaultAppend(AfterT1.ledger, D3, RevertOf(3));
    FirstOrDefaultAppend(AfterT1.ledger, D3, WithId(3, None));
    FirstOrDefaultAppend(AfterT1.ledger, D3, WithId(100, None));
    assert AfterT3.ledger + [R3] == AfterRevertT3.ledger;
    assert AfterT3.balances[10 := 100_00] == AfterRevertT3.balances;
    FirstOrDefaultAppend(AfterT3.ledger, R3, RevertOf(3));
  }
}
