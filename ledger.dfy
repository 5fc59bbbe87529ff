/**
 * The two tables the engine works on, the queries it runs over the ledger,
 * the database constraints an append must respect, and the invariants that
 * tie the balance table to the ledger.
 */
module Ledger {
  import opened Wrappers
  import opened Domain

  /** The Transactions table (in insertion order) and the Clients table (id to balance). */
  datatype Store = Store(ledger: seq<Transaction>, balances: map<Guid, Money>)

  /** The change a ledger entry makes to its client's balance. */
  function SignedAmount(t: Transaction): (r: int)
    ensures t.Type() == TransactionType.Credit ==> r == t.amount
    ensures t.Type() == TransactionType.Debit ==> r == -t.amount
    ensures t.Type() == TransactionType.Revert ==> r == t.amount
  {
    match t
    case CreditTransaction(_, _, amount, _) => amount
    case DebitTransaction(_, _, amount, _) => -amount
    case RevertTransaction(_, _, amount, _, _) => amount
  }

  /** A client's stored balance, with an unknown client read as 0 (`client?.Balance ?? 0m`). */
  function StoredBalance(balances: map<Guid, Money>, clientId: Guid): (r: Money)
    ensures clientId in balances ==> r == balances[clientId]
    ensures clientId !in balances ==> r == 0
  {
    if clientId in balances then balances[clientId] else 0
  }

  /** The signed sum of a client's ledger entries. */
  function BalanceOf(ledger: seq<Transaction>, clientId: Guid): int
    decreases |ledger|
  {
    if ledger == [] then 0
    else
      var last := ledger[|ledger| - 1];
      BalanceOf(ledger[..|ledger| - 1], clientId) + (if last.clientId == clientId then SignedAmount(last) else 0)
  }

  /** The two predicates the repository filters the ledger with. */
  datatype Query =
    | WithId(id: Guid, ofType: Option<TransactionType>)  // `OfType<T>().Where(t => t.Id == id)`; None is `T = Transaction`
    | RevertOf(target: Guid)                            // `OfType<RevertTransaction>().Where(t => t.RevertedTransactionId == target)`

  predicate Matches(t: Transaction, q: Query)
  {
    match q
    case WithId(id, ofType) => t.id == id && (ofType.None? || t.Type() == ofType.value)
    case RevertOf(target) => t.RevertTransaction? && t.revertedTransactionId == Some(target)
  }

  /** `FirstOrDefault` over the ledger: the first entry the query matches, or null. */
  function FirstOrDefault(ledger: seq<Transaction>, q: Query): (r: Option<Transaction>)
    ensures r.Some? ==> r.value in ledger && Matches(r.value, q)
    ensures r.None? <==> forall t :: t in ledger ==> !Matches(t, q)
    decreases |ledger|
  {
    if ledger == [] then None
    else if Matches(ledger[0], q) then Some(ledger[0])
    else FirstOrDefault(ledger[1..], q)
  }

  function FindById(ledger: seq<Transaction>, id: Guid): Option<Transaction>
  {
    FirstOrDefault(ledger, WithId(id, None))
  }

  function FindRevertOf(ledger: seq<Transaction>, target: Guid): Option<Transaction>
  {
    FirstOrDefault(ledger, RevertOf(target))
  }

  /**
   * Which constraint of the Transactions table, if any, rejects appending `t`:
   * the primary key on Id and the filtered unique index on RevertedTransactionId
   * give a duplicate error carrying `t`'s id; the foreign key from
   * RevertedTransactionId to Id gives an unclassified store failure (a row that
   * names its own id satisfies the foreign key by being inserted).
   */
  function AddFailure(ledger: seq<Transaction>, t: Transaction): (e: Option<Error>)
    ensures e == Some(Duplicate(t.id)) <==>
              (exists u :: u in ledger && u.id == t.id)
              || (t.RevertedId().Some? && exists u :: u in ledger && Matches(u, RevertOf(t.RevertedId().value)))
    ensures e == Some(StoreFailure) <==>
              && (forall u :: u in ledger ==> u.id != t.id)
              && t.RevertedId().Some?
              && t.RevertedId().value != t.id
              && (forall u :: u in ledger ==> !Matches(u, RevertOf(t.RevertedId().value)))
              && (forall u :: u in ledger ==> u.id != t.RevertedId().value)
    ensures e.Some? ==> e == Some(Duplicate(t.id)) || e == Some(StoreFailure)
  {
    var target := t.RevertedId();
    if FindById(ledger, t.id).Some? || (target.Some? && FindRevertOf(ledger, target.value).Some?) then
      Some(Duplicate(t.id))
    else if target.Some? && target.value != t.id && FindById(ledger, target.value).None? then
      Some(StoreFailure)
    else
      None
  }

  /** The primary key: no two entries share an id. */
  ghost predicate UniqueIds(ledger: seq<Transaction>)
  {
    forall i, j :: 0 <= i < j < |ledger| ==> ledger[i].id != ledger[j].id
  }

  /** The filtered unique index: no two reverts name the same (non-null) target. */
  ghost predicate OneRevertPerTarget(ledger: seq<Transaction>)
  {
    forall i, j :: 0 <= i < j < |ledger| && ledger[i].RevertedId().Some? ==> ledger[i].RevertedId() != ledger[j].RevertedId()
  }

  /**
   * A revert names an entry of the ledger that is not itself a revert, belongs
   * to the same client, and carries the negation of that entry's effect.
   */
  ghost predicate Compensates(r: Transaction, ledger: seq<Transaction>)
  {
    r.RevertTransaction? ==>
      && r.revertedTransactionId.Some?
      && exists o :: o in ledger && o.id == r.revertedTransactionId.value && !o.RevertTransaction?
                     && o.clientId == r.clientId && r.amount == -SignedAmount(o)
  }

  ghost predicate RevertsWellFormed(ledger: seq<Transaction>)
  {
    forall r :: r in ledger ==> Compensates(r, ledger)
  }

  /**
   * Conservation: every client of a ledger entry has a row, every row belongs
   * to a client with an entry, and a row's balance is the signed sum of its
   * client's entries.
   */
  ghost predicate Conserved(s: Store)
  {
    && (forall t :: t in s.ledger ==> t.clientId in s.balances)
    && (forall c :: c in s.balances ==> exists t :: t in s.ledger && t.clientId == c)
    && (forall c :: c in s.balances ==> s.balances[c] == BalanceOf(s.ledger, c))
  }

  /** The invariant the engine keeps for any requests. */
  ghost predicate Invariant(s: Store)
  {
    && UniqueIds(s.ledger)
    && OneRevertPerTarget(s.ledger)
    && RevertsWellFormed(s.ledger)
    && Conserved(s)
  }

  /** No balance is negative and every credit or debit moves a positive amount. */
  ghost predicate Solvent(s: Store)
  {
    && (forall c :: c in s.balances ==> s.balances[c] >= 0)
    && (forall t :: t in s.ledger && !t.RevertTransaction? ==> t.amount > 0)
  }

  lemma {:induction false} FirstOrDefaultAppend(ledger: seq<Transaction>, t: Transaction, q: Query)
    ensures FirstOrDefault(ledger + [t], q) ==
              if FirstOrDefault(ledger, q).Some? then FirstOrDefault(ledger, q)
              else if Matches(t, q) then Some(t) else None
    decreases |ledger|
  {
    if ledger == [] {
      assert ledger + [t] == [t];
    } else {
      assert (ledger + [t])[0] == ledger[0];
      assert (ledger + [t])[1..] == ledger[1..] + [t];
      FirstOrDefaultAppend(ledger[1..], t, q);
    }
  }

  /** With unique ids, the lookup by id finds exactly the entry that has it. */
  lemma {:induction false} FindByIdUnique(ledger: seq<Transaction>, k: nat)
    requires UniqueIds(ledger)
    requires k < |ledger|
    ensures FindById(ledger, ledger[k].id) == Some(ledger[k])
    decreases |ledger|
  {
    if k > 0 {
      assert ledger[0].id != ledger[k].id;
      assert UniqueIds(ledger[1..]) by {
        forall i, j | 0 <= i < j < |ledger| - 1 ensures ledger[1..][i].id != ledger[1..][j].id {
          assert ledger[1..][i] == ledger[i + 1] && ledger[1..][j] == ledger[j + 1];
        }
      }
      FindByIdUnique(ledger[1..], k - 1);
    }
  }

  /** With the unique index on targets, the lookup of a target's revert finds exactly that revert. */
  lemma {:induction false} FindRevertOfUnique(ledger: seq<Transaction>, k: nat)
    requires OneRevertPerTarget(ledger)
    requires k < |ledger| && ledger[k].RevertedId().Some?
    ensures FindRevertOf(ledger, ledger[k].RevertedId().value) == Some(ledger[k])
    decreases |ledger|
  {
    if k > 0 {
      assert ledger[0].RevertedId() != ledger[k].RevertedId();
      assert OneRevertPerTarget(ledger[1..]) by {
        forall i, j | 0 <= i < j < |ledger| - 1 && ledger[1..][i].RevertedId().Some?
          ensures ledger[1..][i].RevertedId() != ledger[1..][j].RevertedId()
        {
          assert ledger[1..][i] == ledger[i + 1] && ledger[1..][j] == ledger[j + 1];
        }
      }
      FindRevertOfUnique(ledger[1..], k - 1);
    }
  }

  lemma BalanceOfAppend(ledger: seq<Transaction>, t: Transaction, clientId: Guid)
    ensures BalanceOf(ledger + [t], clientId) == BalanceOf(ledger, clientId) + (if t.clientId == clientId then SignedAmount(t) else 0)
  {
    assert (ledger + [t])[..|ledger|] == ledger;
  }

  /** A client without ledger entries has a signed sum of 0. */
  lemma {:induction false} BalanceOfAbsent(ledger: seq<Transaction>, clientId: Guid)
    requires forall t :: t in ledger ==> t.clientId != clientId
    ensures BalanceOf(ledger, clientId) == 0
    decreases |ledger|
  {
    if ledger != [] {
      var init := ledger[..|ledger| - 1];
      assert forall t :: t in init ==> t in ledger;
      assert ledger[|ledger| - 1] in ledger;
      BalanceOfAbsent(init, clientId);
    }
  }

  /** Under conservation, the stored balance (0 for an unknown client) is the signed sum of the ledger. */
  lemma StoredBalanceIsSignedSum(s: Store, clientId: Guid)
    requires Conserved(s)
    ensures StoredBalance(s.balances, clientId) == BalanceOf(s.ledger, clientId)
  {
    if clientId !in s.balances {
      BalanceOfAbsent(s.ledger, clientId);
    }
  }
}
