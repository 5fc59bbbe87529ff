/**
 * What the operations promise across calls: they keep the ledger invariants
 * (unique ids, one revert per target, well-formed reverts, balances equal to
 * signed sums, no negative balance), repeating a request changes nothing,
 * and credits of the same amount add up.
 */
module Properties {
  import opened Wrappers
  import opened Domain
  import opened Ledger
  import opened Dtos
  import Operations
  import Validators

  /** The tables a new context starts with satisfy the invariant and are solvent. */
  lemma EmptyStoreInvariant()
    ensures Invariant(Store([], map[])) && Solvent(Store([], map[]))
  {
  }

  lemma CompensatesGrows(r: Transaction, ledger: seq<Transaction>, t: Transaction)
    requires Compensates(r, ledger)
    ensures Compensates(r, ledger + [t])
  {
    if r.RevertTransaction? {
      var o :| o in ledger && o.id == r.revertedTransactionId.value && !o.RevertTransaction?
               && o.clientId == r.clientId && r.amount == -SignedAmount(o);
      assert o in ledger + [t];
    }
  }

  lemma AppendKeepsUniqueIds(ledger: seq<Transaction>, t: Transaction)
    requires UniqueIds(ledger)
    requires forall u :: u in ledger ==> u.id != t.id
    ensures UniqueIds(ledger + [t])
  {
    var l' := ledger + [t];
    forall i, j | 0 <= i < j < |l'| ensures l'[i].id != l'[j].id {
      assert l'[i] == ledger[i] && ledger[i] in ledger;
      if j < |ledger| {
        assert l'[j] == ledger[j];
      }
    }
  }

  lemma AppendKeepsOneRevertPerTarget(ledger: seq<Transaction>, t: Transaction)
    requires OneRevertPerTarget(ledger)
    requires t.RevertedId().Some? ==> forall u :: u in ledger ==> !Matches(u, RevertOf(t.RevertedId().value))
    ensures OneRevertPerTarget(ledger + [t])
  {
    var l' := ledger + [t];
    forall i, j | 0 <= i < j < |l'| && l'[i].RevertedId().Some?
      ensures l'[i].RevertedId() != l'[j].RevertedId()
    {
      assert l'[i] == ledger[i] && ledger[i] in ledger;
      if j < |ledger| {
        assert l'[j] == ledger[j];
      }
    }
  }

  lemma AppendKeepsRevertsWellFormed(ledger: seq<Transaction>, t: Transaction)
    requires RevertsWellFormed(ledger)
    requires Compensates(t, ledger)
    ensures RevertsWellFormed(ledger + [t])
  {
    forall r | r in ledger + [t] ensures Compensates(r, ledger + [t]) {
      CompensatesGrows(r, ledger, t);
    }
  }

  lemma BookKeepsConserved(s: Store, t: Transaction)
    requires Conserved(s)
    requires AddFailure(s.ledger, t).None?
    ensures Conserved(Operations.Book(s, t).1)
  {
    var l := s.ledger;
    var l' := l + [t];
    var c := t.clientId;
    var s' := Operations.Book(s, t).1;
    assert s'.ledger == l';
    assert s'.balances == s.balances[c := StoredBalance(s.balances, c) + SignedAmount(t)];
    StoredBalanceIsSignedSum(s, c);
    forall c' | c' in s'.balances ensures s'.balances[c'] == BalanceOf(l', c') {
      BalanceOfAppend(l, t, c');
    }
    forall c' | c' in s'.balances ensures exists u :: u in l' && u.clientId == c' {
      if c' == c {
        assert t in l';
      } else {
        var u :| u in l && u.clientId == c';
        assert u in l';
      }
    }
  }

  /** A successful booking of an entry that compensates correctly (if it is a revert) keeps the invariant. */
  lemma BookPreservesInvariant(s: Store, t: Transaction)
    requires Invariant(s)
    requires Compensates(t, s.ledger)
    ensures Invariant(Operations.Book(s, t).1)
  {
    if AddFailure(s.ledger, t).None? {
      assert Operations.Book(s, t).1.ledger == s.ledger + [t];
      AppendKeepsUniqueIds(s.ledger, t);
      AppendKeepsOneRevertPerTarget(s.ledger, t);
      AppendKeepsRevertsWellFormed(s.ledger, t);
      BookKeepsConserved(s, t);
    }
  }

  /** A booking keeps balances non-negative when the entry's new balance is, and credits and debits move positive amounts. */
  lemma BookKeepsSolvent(s: Store, t: Transaction)
    requires Solvent(s)
    requires !t.RevertTransaction? ==> t.amount > 0
    requires StoredBalance(s.balances, t.clientId) + SignedAmount(t) >= 0
    ensures Solvent(Operations.Book(s, t).1)
  {
  }

  lemma CreditPreservesInvariant(s: Store, request: TransactionRequest, now: DateTime)
    ensures Invariant(s) ==> Invariant(Operations.Credit(s, request, now).1)
    ensures Solvent(s) && request.amount > 0 ==> Solvent(Operations.Credit(s, request, now).1)
  {
    var t := CreditTransaction(request.id, request.clientId, request.amount, now);
    if FindById(s.ledger, request.id).None? {
      if Invariant(s) {
        BookPreservesInvariant(s, t);
      }
      if Solvent(s) && request.amount > 0 {
        BookKeepsSolvent(s, t);
      }
    }
  }

  lemma DebitPreservesInvariant(s: Store, request: TransactionRequest, now: DateTime)
    ensures Invariant(s) ==> Invariant(Operations.Debit(s, request, now).1)
    ensures Solvent(s) && request.amount > 0 ==> Solvent(Operations.Debit(s, request, now).1)
  {
    var t := DebitTransaction(request.id, request.clientId, request.amount, now);
    if FindById(s.ledger, request.id).None? && StoredBalance(s.balances, request.clientId) >= request.amount {
      if Invariant(s) {
        BookPreservesInvariant(s, t);
      }
      if Solvent(s) && request.amount > 0 {
        BookKeepsSolvent(s, t);
      }
    }
  }

  /** Reverting keeps the invariant, and in a solvent state it never drives a balance below zero. */
  lemma RevertPreservesInvariant(s: Store, transactionId: Guid, revertId: Guid, now: DateTime)
    ensures Invariant(s) ==> Invariant(Operations.Revert(s, transactionId, revertId, now).1)
    ensures Solvent(s) ==> Solvent(Operations.Revert(s, transactionId, revertId, now).1)
  {
    if FindRevertOf(s.ledger, transactionId).None? && FindById(s.ledger, transactionId).Some? {
      var original := FindById(s.ledger, transactionId).value;
      var current := StoredBalance(s.balances, original.clientId);
      if !original.RevertTransaction? && !(original.CreditTransaction? && current < original.amount) {
        var t := Operations.CompensatingEntry(original, revertId, now);
        assert Compensates(t, s.ledger);
        if Invariant(s) {
          BookPreservesInvariant(s, t);
        }
        if Solvent(s) {
          assert original.amount > 0;
          BookKeepsSolvent(s, t);
        }
      }
    }
  }

  /** Under the invariant, the balance query reports the signed sum of the client's entries, and fails exactly for a client without any. */
  lemma GetBalanceIsSignedSum(s: Store, clientId: Guid, now: DateTime)
    requires Invariant(s)
    ensures Operations.GetBalance(s, clientId, now).Success? <==> exists t :: t in s.ledger && t.clientId == clientId
    ensures Operations.GetBalance(s, clientId, now).Success? ==> Operations.GetBalance(s, clientId, now).value.clientBalance == BalanceOf(s.ledger, clientId)
  {
    StoredBalanceIsSignedSum(s, clientId);
  }

  /** A record that is the ledger's only entry with its id is what a later lookup of that id replays. */
  lemma FindAppended(ledger: seq<Transaction>, t: Transaction)
    requires FindById(ledger, t.id).None?
    ensures FindById(ledger + [t], t.id) == Some(t)
  {
    FirstOrDefaultAppend(ledger, t, WithId(t.id, None));
  }

  /** Repeating a credit, at any later time, returns the first answer and changes nothing. */
  lemma CreditIsIdempotent(s: Store, request: TransactionRequest, now: DateTime, later: DateTime)
    ensures var (r, after) := Operations.Credit(s, request, now);
            Operations.Credit(after, request, later) == (r, after)
  {
    if FindById(s.ledger, request.id).None? {
      FindAppended(s.ledger, CreditTransaction(request.id, request.clientId, request.amount, now));
    }
  }

  /** Repeating a debit, at any later time, returns the first answer (success or insufficient funds) and changes nothing. */
  lemma DebitIsIdempotent(s: Store, request: TransactionRequest, now: DateTime, later: DateTime)
    ensures var (r, after) := Operations.Debit(s, request, now);
            Operations.Debit(after, request, later) == (r, after)
  {
    if FindById(s.ledger, request.id).None? && StoredBalance(s.balances, request.clientId) >= request.amount {
      FindAppended(s.ledger, DebitTransaction(request.id, request.clientId, request.amount, now));
    }
  }

  /**
   * Repeating a revert, with any fresh id and at any later time, returns the
   * first answer and changes nothing, unless the first attempt failed only
   * because its fresh id collided.
   */
  lemma RevertIsIdempotent(s: Store, transactionId: Guid, revertId: Guid, now: DateTime, nextId: Guid, later: DateTime)
    ensures var (r, after) := Operations.Revert(s, transactionId, revertId, now);
            !(r.Failure? && r.error.Duplicate?) ==> Operations.Revert(after, transactionId, nextId, later) == (r, after)
  {
    var (r, after) := Operations.Revert(s, transactionId, revertId, now);
    if r.Success? && FindRevertOf(s.ledger, transactionId).None? {
      var original := FindById(s.ledger, transactionId).value;
      var t := Operations.CompensatingEntry(original, revertId, now);
      assert after.ledger == s.ledger + [t];
      FirstOrDefaultAppend(s.ledger, t, RevertOf(transactionId));
    }
  }

  /** Credits applied one after another. */
  function CreditAll(s: Store, requests: seq<TransactionRequest>, now: DateTime): Store
    decreases |requests|
  {
    if requests == [] then s else CreditAll(Operations.Credit(s, requests[0], now).1, requests[1..], now)
  }

  /**
   * Credits with distinct new ids and the same amount for one client, however
   * many and in whatever order they are serialized, add exactly one record
   * each and raise the balance by their number times the amount.
   */
  lemma {:induction false} CreditsAccumulate(s: Store, requests: seq<TransactionRequest>, now: DateTime, clientId: Guid, amount: Money)
    requires forall i :: 0 <= i < |requests| ==> requests[i].clientId == clientId && requests[i].amount == amount
    requires forall i, j :: 0 <= i < j < |requests| ==> requests[i].id != requests[j].id
    requires forall i :: 0 <= i < |requests| ==> FindById(s.ledger, requests[i].id).None?
    ensures |CreditAll(s, requests, now).ledger| == |s.ledger| + |requests|
    ensures StoredBalance(CreditAll(s, requests, now).balances, clientId) == StoredBalance(s.balances, clientId) + |requests| * amount
    decreases |requests|
  {
    if requests != [] {
      var first := requests[0];
      var t := CreditTransaction(first.id, first.clientId, first.amount, now);
      var s1 := Operations.Credit(s, first, now).1;
      assert s1.ledger == s.ledger + [t];
      var rest := requests[1..];
      forall i | 0 <= i < |rest| ensures FindById(s1.ledger, rest[i].id).None? {
        assert rest[i] == requests[i + 1];
        FirstOrDefaultAppend(s.ledger, t, WithId(rest[i].id, None));
      }
      CreditsAccumulate(s1, rest, now, clientId, amount);
      assert |rest| * amount + amount == |requests| * amount;
    }
  }

  /** A request that passed validation keeps a solvent state solvent, whether it is credited or debited. */
  lemma ValidatedRequestsKeepSolvent(s: Store, request: TransactionRequest, at: DateTime, now: DateTime)
    requires Validators.IsValid(request, at)
    requires Solvent(s)
    ensures Solvent(Operations.Credit(s, request, now).1)
    ensures Solvent(Operations.Debit(s, request, now).1)
  {
    CreditPreservesInvariant(s, request, now);
    DebitPreservesInvariant(s, request, now);
  }
}
