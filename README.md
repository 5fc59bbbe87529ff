# BankWebApplication transaction engine in Dafny

This project models the transaction engine of the BankWebApplication service.
It covers `TransactionApplicationService`, with its four operations credit,
debit, revert and balance query. It also covers what that service stands on:
the two repositories over one shared `BankDbContext`, the client service,
`BaseRepository`'s reusable unit of work, the transaction entity hierarchy,
and the request validator.

The model is in three layers.

- **`Operations`:** each operation as a pure function. It takes the two
  tables, the `Transactions` ledger and the `Clients` balances. It returns the
  result and the new tables. The ledger is kept in insertion order, and the
  balances are a map from client id to balance.
- **The classes:** `BankDbContext`, `TransactionRepository`,
  `ClientRepository`, `ClientService` and `TransactionApplicationService`. They
  do the work step by step on the context's fields. The context, repository and
  client-service methods state their new fields outright in their own
  `ensures`; `TransactionRepository.AddTransaction` is tied to
  `Ledger.AddFailure`. The `TransactionApplicationService` methods are proved
  to leave the fields as the matching `Operations` function says. Every
  mutating method also records on a journal, `log`, every begin, save, commit
  and rollback it issues.
- **`Properties`:** lemmas proved about the `Operations` functions. They show
  that the ledger invariants are kept, that requests are idempotent, that
  credits add up, and how the balance query relates to the ledger.

Modelling choices:

- **The transaction hierarchy** is one datatype with one constructor per
  subclass. `Type()` gives the discriminator.
- **Exceptions** become `Result` values carrying an `Error`.
- **Framework values:**
  - Amounts (`decimal(18,2)`) are integers counting hundredths.
  - A `Guid` is an integer below 2^128, and 0 is `Guid.Empty`.
  - A `DateTime` is a tick count, and 0 is its default.
- **Parameters:** the clock's `UtcNow` is the parameter `now`. `Guid.NewGuid()`
  for a revert is the parameter `revertId`.
- **Unit of work:** `ExecuteInTransactionAsync` takes a closure that changes
  the database. A Dafny method can take a function value, but a function value
  cannot change state. It is split around its operation:
  - `EnterTransaction` joins the open transaction or begins one.
  - The operation itself becomes a method. These are `CreditInTransaction`,
    `DebitInTransaction` and `RevertInTransaction`, the bodies of the three
    lambdas.
  - `LeaveTransaction` saves, and commits what it began. After a failure it
    rolls back only what it began.
- **Saving:** writes reach the rows as they are made, so `SaveChanges` only
  marks the point in the journal. The database constraints are checked when
  the entry is added:
  - the primary key on `Id`;
  - the filtered unique index on `RevertedTransactionId`, as the migration creates it;
  - the foreign key from `RevertedTransactionId` to `Id`.

Where the code does not do what a reader of the engine might expect, the model
follows the code:

- A credit or debit replays any existing record with the same id, even one
  of a different type.
- A lost race on an id is reported as a duplicate error. It is not retried
  as a lookup that returns the idempotent result.
- A unique-index violation on a revert reports the new revert's id, not the
  target's.
- Program.cs:67 builds the schema with `EnsureCreated()` from the EF model,
  not from the migration. Its index on `RevertedTransactionId`
  (BankDbContext.cs:57) is not unique. On a database created that way, only
  the pre-check at TransactionApplicationService.cs:102 keeps one revert per
  target.
- The request's own `DateTime` is never stored. Records carry the server's
  time.

## Model

| member | source | states |
|---|---|---|
| Domain.Transaction.Type | BankWebApplication/TransactionService.Domain/Entities/Transaction.cs:3-40 | the discriminator is Credit, Debit or Revert exactly for the credit, debit or revert subclass |
| Domain.Transaction.RevertedId | BankWebApplication/TransactionService.Domain/Entities/Transaction.cs:35-43 | only a revert carries a reverted id, and it is that revert's `RevertedTransactionId` |
| Ledger.SignedAmount | BankWebApplication/TransactionService.Application/Services/TransactionApplicationService.cs:47-150 | an entry moves its client's balance by +amount for a credit (line 47), -amount for a debit (line 87), and by its own signed amount for a revert (lines 143-150), the amounts passed to `AdjustBalanceAsync` |
| Ledger.StoredBalance | BankWebApplication/TransactionService.Infrastructure/Services/ClientService.cs:18 | a client's stored balance, or 0 when it has no row |
| Ledger.FirstOrDefault | BankWebApplication/TransactionService.Infrastructure/Repositories/TransactionRepository.cs:16-25 | a found entry is in the ledger and matches the query; nothing is found exactly when no entry matches |
| Ledger.AddFailure | BankWebApplication/TransactionService.Infrastructure/Repositories/TransactionRepository.cs:27-38 | an append fails as a duplicate of the entry's id exactly when its id is taken or its target already has a revert; it fails unclassified exactly when it breaks only the foreign key, naming a target that is neither in the ledger nor its own id |
| Ledger.FirstOrDefaultAppend | BankWebApplication/TransactionService.Infrastructure/Repositories/TransactionRepository.cs:16-25 | after an append, a lookup finds what it found before, else the new entry if it matches |
| Ledger.FindByIdUnique | BankWebApplication/TransactionService.Infrastructure/Repositories/TransactionRepository.cs:16-19 | with unique ids, the lookup by an entry's id returns that entry |
| Ledger.FindRevertOfUnique | BankWebApplication/TransactionService.Infrastructure/Repositories/TransactionRepository.cs:21-25 | with one revert per target, the lookup by a revert's target returns that revert |
| Ledger.BalanceOfAppend | BankWebApplication/TransactionService.Application/Services/TransactionApplicationService.cs:45-47 | appending an entry changes its client's signed sum by its signed amount, and no other client's |
| Ledger.BalanceOfAbsent | BankWebApplication/TransactionService.Infrastructure/Services/ClientService.cs:15-19 | a client without entries has a signed sum of 0 |
| Ledger.StoredBalanceIsSignedSum | BankWebApplication/TransactionService.Infrastructure/Services/ClientService.cs:15-19 | under conservation, the balance read with 0 for a missing row is the client's signed sum |
| Data.BankDbContext.BeginTransaction | BankWebApplication/TransactionService.Infrastructure/Repositories/BaseRepository.cs:30 | opens a transaction at the level, remembering the rows as they stand |
| Data.BankDbContext.SaveChanges | BankWebApplication/TransactionService.Infrastructure/Repositories/BaseRepository.cs:25 | each save adds one save event to the journal and nothing else |
| Data.BankDbContext.Commit | BankWebApplication/TransactionService.Infrastructure/Repositories/BaseRepository.cs:35 | closes the open transaction and keeps its writes |
| Data.BankDbContext.Rollback | BankWebApplication/TransactionService.Infrastructure/Repositories/BaseRepository.cs:38-42 | closes the open transaction and restores the rows it began with |
| Repositories.UnitOfWorkTrace | BankWebApplication/TransactionService.Infrastructure/Repositories/BaseRepository.cs:16-71 | the journal of one call: a begin if none was open, the operation's saves, then a save and a commit, a rollback, a save, or nothing; its length is counted accordingly |
| Repositories.UnitOfWorkTraceShape | BankWebApplication/TransactionService.Infrastructure/Repositories/BaseRepository.cs:16-71 | a unit of work begins exactly when none is open; it commits exactly when it began and succeeded, and rolls back exactly when it began and failed; otherwise it only saves |
| Repositories.EnterTransaction | BankWebApplication/TransactionService.Infrastructure/Repositories/BaseRepository.cs:18-30 | joins an open transaction unchanged, or begins one at the requested level |
| Repositories.LeaveTransaction | BankWebApplication/TransactionService.Infrastructure/Repositories/BaseRepository.cs:21-42 | after success, saves and commits what it began; after failure, rolls back only what it began, restoring the rows |
| Repositories.TransactionRepository.GetTransactionById | BankWebApplication/TransactionService.Infrastructure/Repositories/TransactionRepository.cs:16-19 | the entry with the id and of the requested subtype, or none exactly when there is no such entry |
| Repositories.TransactionRepository.GetRevertTransactionByRevertedId | BankWebApplication/TransactionService.Infrastructure/Repositories/TransactionRepository.cs:21-25 | a revert naming the target, or none exactly when no revert names it |
| Repositories.TransactionRepository.AddTransaction | BankWebApplication/TransactionService.Infrastructure/Repositories/TransactionRepository.cs:27-38 | appends and saves; a key or unique-index violation is a duplicate of the entry's id, other violations propagate, and a failed append adds nothing |
| Repositories.ClientRepository.GetById | BankWebApplication/TransactionService.Infrastructure/Repositories/ClientRepository.cs:14-17 | the client row, or none exactly when there is none; never creates one |
| Repositories.ClientRepository.GetOrCreate | BankWebApplication/TransactionService.Infrastructure/Repositories/ClientRepository.cs:19-34 | returns the row, adding one at balance 0 only when it is missing |
| Repositories.ClientRepository.AdjustBalance | BankWebApplication/TransactionService.Infrastructure/Repositories/ClientRepository.cs:36-43 | the new balance is the old one (0 if missing) plus the amount; only that row changes; one save |
| Services.ClientService.GetBalance | BankWebApplication/TransactionService.Infrastructure/Services/ClientService.cs:15-19 | the stored balance, 0 for an unknown client |
| Services.ClientService.GetClient | BankWebApplication/TransactionService.Infrastructure/Services/ClientService.cs:21-24 | the row, or none exactly for an unknown client |
| Services.ClientService.HasSufficientFunds | BankWebApplication/TransactionService.Infrastructure/Services/ClientService.cs:26-30 | true exactly when the balance, 0 for an unknown client, is at least the amount |
| Services.ClientService.AdjustBalance | BankWebApplication/TransactionService.Infrastructure/Services/ClientService.cs:32-38 | adjusts the one row inside a serializable unit of work, leaving the ledger and the open transaction as they were |
| Operations.IdempotentResponse | BankWebApplication/TransactionService.Application/Services/TransactionApplicationService.cs:178-187 | the replayed response carries the existing record's time and its client's current balance |
| Operations.CompensatingEntry | BankWebApplication/TransactionService.Application/Services/TransactionApplicationService.cs:139-146 | a revert under the fresh id, stamped now, for the original's client and naming the original; it cancels a credit or debit exactly |
| Operations.Book | BankWebApplication/TransactionService.Application/Services/TransactionApplicationService.cs:45-47 | the append fails exactly when a constraint rejects it, and then nothing changes; otherwise the entry is appended and only its client's balance moves, by its signed amount |
| Operations.ApplyCredit | BankWebApplication/TransactionService.Application/Services/TransactionApplicationService.cs:35-56 | an id taken meanwhile is a duplicate with no change; otherwise one credit stamped now is appended and its client's balance rises by the amount, which is returned with now |
| Operations.Credit | BankWebApplication/TransactionService.Application/Services/TransactionApplicationService.cs:27-57 | a known id replays its record's time and its client's current balance and changes nothing; a new id appends one credit and raises only that client's balance by the amount |
| Operations.ApplyDebit | BankWebApplication/TransactionService.Application/Services/TransactionApplicationService.cs:67-96 | too little money is insufficient funds with the balance and amount and no change; then a taken id is a duplicate; otherwise one debit is appended and the balance falls by the amount; every failure changes nothing |
| Operations.Debit | BankWebApplication/TransactionService.Application/Services/TransactionApplicationService.cs:59-97 | replay as for credit; too little money gives insufficient funds with the balance and amount and changes nothing; otherwise one debit is appended and the balance falls by the amount, staying non-negative |
| Operations.ApplyRevert | BankWebApplication/TransactionService.Application/Services/TransactionApplicationService.cs:114-159 | not found, a refused revert of a revert, and insufficient funds for a credit, each with no change; then a taken fresh id or a revert filed meanwhile is a duplicate of the fresh id; otherwise the compensating entry is appended and the balance moves by minus the original's effect |
| Operations.Revert | BankWebApplication/TransactionService.Application/Services/TransactionApplicationService.cs:99-160 | an existing revert of the target is replayed; otherwise the outcome is not found, a refused revert of a revert, or insufficient funds for a credit, each changing nothing; or a duplicate on a colliding fresh id; or one compensating entry appended, moving the balance by minus the original's effect |
| Operations.GetBalance | BankWebApplication/TransactionService.Application/Services/TransactionApplicationService.cs:162-176 | an unknown client is not found; otherwise the query time and the stored balance |
| Application.TransactionApplicationService.CreateIdempotentResponse | BankWebApplication/TransactionService.Application/Services/TransactionApplicationService.cs:178-187 | the existing record's time and its client's current balance |
| Application.TransactionApplicationService.Book | BankWebApplication/TransactionService.Application/Services/TransactionApplicationService.cs:45-47 | the add-then-adjust step leaves the rows as `Operations.Book` says, saving three times on success and once on a rejected append |
| Application.TransactionApplicationService.CreditInTransaction | BankWebApplication/TransactionService.Application/Services/TransactionApplicationService.cs:35-56 | the credit lambda computes `Operations.ApplyCredit` on the rows and keeps the open transaction |
| Application.TransactionApplicationService.Credit | BankWebApplication/TransactionService.Application/Services/TransactionApplicationService.cs:27-57 | the result and the new rows are `Operations.Credit` of the old rows; a replay adds no begin, save, commit or rollback to the journal; otherwise exactly one serializable unit of work is journalled |
| Application.TransactionApplicationService.DebitInTransaction | BankWebApplication/TransactionService.Application/Services/TransactionApplicationService.cs:67-96 | the debit lambda computes `Operations.ApplyDebit` on the rows |
| Application.TransactionApplicationService.Debit | BankWebApplication/TransactionService.Application/Services/TransactionApplicationService.cs:59-97 | the result and the new rows are `Operations.Debit` of the old rows; a replay adds no begin, save, commit or rollback to the journal; otherwise exactly one serializable unit of work is journalled, which begins, commits or rolls back only when no transaction was already open (a joined call saves on success and adds nothing on failure) |
| Application.TransactionApplicationService.RevertInTransaction | BankWebApplication/TransactionService.Application/Services/TransactionApplicationService.cs:114-159 | the revert lambda computes `Operations.ApplyRevert` on the rows |
| Application.TransactionApplicationService.RevertInUnitOfWork | BankWebApplication/TransactionService.Application/Services/TransactionApplicationService.cs:114-159 | the revert lambda run in a serializable unit of work yields `Operations.ApplyRevert` of the rows, rolled back on failure, with its journal given exactly |
| Application.TransactionApplicationService.Revert | BankWebApplication/TransactionService.Application/Services/TransactionApplicationService.cs:99-160 | the result and the new rows are `Operations.Revert` of the old rows; an existing revert is replayed with no begin, save, commit or rollback in the journal; otherwise one serializable unit of work is journalled |
| Application.TransactionApplicationService.GetBalance | BankWebApplication/TransactionService.Application/Services/TransactionApplicationService.cs:162-176 | the result is `Operations.GetBalance` of the rows, and nothing changes |
| Properties.EmptyStoreInvariant | BankWebApplication/TransactionService.Infrastructure/Data/BankDbContext.cs:1-60 | the empty tables a new database starts with satisfy the invariant and are solvent |
| Properties.AppendKeepsUniqueIds | BankWebApplication/TransactionService.Infrastructure/Repositories/TransactionRepository.cs:27-38 | an append of an unused id keeps ids unique |
| Properties.AppendKeepsOneRevertPerTarget | BankWebApplication/TransactionService.Infrastructure/Repositories/TransactionRepository.cs:27-38 | an append whose target has no revert yet keeps at most one revert per target |
| Properties.AppendKeepsRevertsWellFormed | BankWebApplication/TransactionService.Application/Services/TransactionApplicationService.cs:139-146 | an appended revert that compensates a non-revert entry of the same client keeps every revert compensating |
| Properties.BookKeepsConserved | BankWebApplication/TransactionService.Application/Services/TransactionApplicationService.cs:45-47 | after a booking, every balance is still the signed sum of its client's entries, and rows and clients with entries still match |
| Properties.BookPreservesInvariant | BankWebApplication/TransactionService.Application/Services/TransactionApplicationService.cs:45-47 | a booking of a correctly compensating entry keeps the whole ledger invariant |
| Properties.BookKeepsSolvent | BankWebApplication/TransactionService.Application/Services/TransactionApplicationService.cs:69-75 | a booking whose new balance is non-negative keeps every balance non-negative |
| Properties.CreditPreservesInvariant | BankWebApplication/TransactionService.Application/Services/TransactionApplicationService.cs:27-57 | a credit keeps the invariant, and with a positive amount keeps balances non-negative |
| Properties.DebitPreservesInvariant | BankWebApplication/TransactionService.Application/Services/TransactionApplicationService.cs:59-97 | a debit keeps the invariant, and with a positive amount never takes a balance below zero |
| Properties.RevertPreservesInvariant | BankWebApplication/TransactionService.Application/Services/TransactionApplicationService.cs:99-160 | a revert keeps the invariant and never takes a balance below zero |
| Properties.GetBalanceIsSignedSum | BankWebApplication/TransactionService.Application/Services/TransactionApplicationService.cs:162-176 | under the invariant, the query succeeds exactly for a client with entries and reports their signed sum |
| Properties.FindAppended | BankWebApplication/TransactionService.Application/Services/TransactionApplicationService.cs:29-33 | a newly appended record is what the next lookup of its id finds |
| Properties.CreditIsIdempotent | BankWebApplication/TransactionService.Application/Services/TransactionApplicationService.cs:27-57 | repeating a credit at any later time returns the first answer and changes nothing |
| Properties.DebitIsIdempotent | BankWebApplication/TransactionService.Application/Services/TransactionApplicationService.cs:59-97 | repeating a debit returns the first answer, success or refusal, and changes nothing |
| Properties.RevertIsIdempotent | BankWebApplication/TransactionService.Application/Services/TransactionApplicationService.cs:99-112 | repeating a revert with any fresh id returns the first answer and changes nothing, unless the first attempt's fresh id collided |
| Properties.CreditsAccumulate | BankWebApplication/TransactionService.Application/Services/TransactionApplicationService.cs:27-57 | n credits of one amount with distinct new ids add n records and raise the balance by n times the amount |
| Properties.ValidatedRequestsKeepSolvent | BankWebApplication/TransactionService.Application/Validators/TransactionRequestValidator.cs:25-27 | a request that passed validation, credited or debited, keeps a solvent state solvent |
| Validators.ValidationFailure.PropertyName | BankWebApplication/TransactionService.Application/Validators/TransactionRequestValidator.cs:11-25 | each failure is reported for one of the four request properties its rule is declared for |
| Validators.ValidationFailure.Message | BankWebApplication/TransactionService.Application/Validators/TransactionRequestValidator.cs:13-27 | each failure carries a non-empty message |
| Validators.MessagesIdentifyRules | BankWebApplication/TransactionService.Application/Validators/TransactionRequestValidator.cs:13-27 | two failures carry the same message exactly when they come from the same rule, so the two date rules are told apart by their messages |
| Validators.ErrorsByProperty | BankWebApplication/TransactionService.Application/Validators/TransactionRequestValidator.cs:11-27 | given exactly the broken rules, an error is reported for `Id`, `ClientId`, `DateTime` or `Amount` exactly when that property is empty, the date is empty or later than now, or the amount is not positive |
| Validators.Check | BankWebApplication/TransactionService.Application/Validators/TransactionRequestValidator.cs:9-28 | reports exactly the broken rules, in rule order, each once |
| Validators.Validate | BankWebApplication/TransactionService.Application/Validators/TransactionRequestValidator.cs:9-28 | a failure is reported exactly for each broken rule (ids set, date set and not in the future, amount positive); none exactly for a valid request; in rule order; an error for each property exactly when that property's rules are broken, so a date equal to now draws no `DateTime` error |
| Walkthrough.CreditThenRepeat | BankWebApplication/TransactionService.Tests/TransactionApplicationServiceTests.cs:40-113 | a credit of 100.00 on an empty client gives 100.00, and its repeat replays it without change |
| Walkthrough.DebitRefusedThenAccepted | BankWebApplication/TransactionService.Tests/TransactionApplicationServiceTests.cs:116-185 | a debit of 150.00 from 100.00 is refused with both figures; a debit of 40.00 leaves 60.00 |
| Walkthrough.RevertOfCreditRefused | BankWebApplication/TransactionService.Application/Services/TransactionApplicationService.cs:128-137 | reverting the 100.00 credit at 60.00 is refused for lack of funds |
| Walkthrough.RevertOfDebitThenRepeat | BankWebApplication/TransactionService.Application/Services/TransactionApplicationService.cs:99-160 | reverting the 40.00 debit gives 100.00, a repeat replays it, and an unknown client is not found |

## Left out

- HTTP layer, middlewares, logging and async scheduling: the controller, the exception middlewares, `ILogger` calls and `Task`/`await` are not part of this model.
- Concurrency and isolation: one request runs at a time. The isolation level is recorded but has no effect. Races between concurrent requests are not modelled, only the store's answer when an id or a target is already taken.
- EF Core change tracking and mapping: writes reach the tables at once, so a failed `SaveChanges` leaves no pending entity behind. An entity that stays tracked after a failed save is not modelled.
- Save and commit failures: `SaveChanges` on a balance and `Commit` never fail in the model. The rollback on a failure from those calls is therefore not exercised.
- `SqlExceptionHelper`: the SQL error numbers 2601 and 2627 are modelled as the constraints they stand for. No SQL error objects are modelled.
- `DateTimeProvider` and `Guid.NewGuid()`: these become the parameters `now` and `revertId`. A colliding `revertId` is modelled as the duplicate error the store gives.
- Decimal precision: amounts are unbounded integers in hundredths. Fractions below a hundredth and the overflow of `decimal(18,2)` are not modelled.
- `FirstOrDefault` without `OrderBy`: the database's order is unspecified. It is modelled as insertion order. Under the proved invariants at most one entry matches, so the order cannot matter there.
- The non-generic `ExecuteInTransactionAsync` overload (BaseRepository.cs:45-71): it behaves exactly like the generic one without a result. The same `EnterTransaction`/`LeaveTransaction` pair models both.
- Validators.Validate: the date rule compares tick counts only. The `DateTimeKind` of `DateTime` is not modelled.
- A retry that turns a lost duplicate-id race into the idempotent result: the code has none, so the model has none. A lost race surfaces as `Duplicate`.
- The `EnsureCreated` schema: the model assumes the migration's schema, where one revert per target is enforced by a unique index. Under the schema that Program.cs:67 creates, the index is not unique, and a second revert of the same target filed by a concurrent request would be accepted. The Ledger.AddFailure duplicate case for a target that already has a revert holds only for the migration's schema.
- The CreditPreservesInvariant, DebitPreservesInvariant and RevertPreservesInvariant properties are stated on `Operations`. The methods of `TransactionApplicationService` carry the equation to those functions rather than repeating the invariant in their own contracts.
