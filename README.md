# chain_tx ledger, modelled in Dafny

chain_tx replays an ordered stream of transaction records against per-client
accounts. Each client has a ledger (`ClientData`) holding available, held and
total funds, a lock flag, and the bookkeeping for disputes. A record can be a
deposit, a withdrawal, a dispute, a resolve or a chargeback. The engine routes
each record to its client's ledger. It creates the ledger on the client's first
deposit and stops at the first record that fails.

The project has six modules:

- `Errors`: the failures, as one datatype, plus `Option` and `Result`.
- `Transactions`: the identifier newtypes (`ClientId` over `u16`,
  `TransactionId` over `u32`), the five-case `TransactionType`, the record, and
  the field parser (`from_str`, `from_fields`, unsigned integer parsing).
- `Ledger`: one client's ledger as a value. It has the five operations as
  functions and the invariants they keep.
- `Client`: the class `ClientData`. Its methods update the fields in place, and
  each method is proved to do what the matching `Ledger` function says.
- `Routing`: the router as functions on a map from client ids to ledger values.
  `Step` handles one record and `Run` a whole input; the module also holds
  lemmas about ordering, isolation between clients and validity.
- `Engine`: the class `Engine` holding `clients: map<ClientId, ClientData>` and
  the loop of `apply_transactions`. A ghost field `ledgers` mirrors the objects
  as values. The loop is proved to compute exactly `Routing.Run`.

Amounts are integers: fixed-point ten-thousandths of a currency unit.

The central invariant is `Ledger.Consistent`. It has five parts:

- `total == available + held`;
- every id under dispute or already settled is a recorded transaction;
- the in-dispute and settled sets are disjoint;
- `held` is the sum of the signed amounts under dispute;
- while unlocked, `total` is the sum of all recorded signed amounts.

`Ledger.Valid` adds `available >= 0`. That part holds only while the amounts
deposited are not negative, which the router ensures.

The model takes these policies from the Rust code:

- A resolved id is moved to the settled set (`disputed`), so it can never be
  disputed again (src/client.rs:126).
- The first failing record aborts the run, and the effects of the records before
  it stay (src/engine.rs:18-37). There is no mode that skips failing records.
- The engine itself refuses a negative amount, before it looks up any client
  (src/engine.rs:21).
- A dispute of an unknown id is a silent no-op, but only after the lock,
  in-dispute and already-settled checks pass (src/client.rs:76-89).
- Insufficient funds has three distinct errors, one each for withdrawal
  (src/client.rs:62-65), dispute (src/client.rs:90-93) and resolve
  (src/client.rs:114-117).

The Rust code's `entry().or_default()` creates a new client's ledger before the
deposit runs, and the model does the same in `Engine.Engine.LedgerFor`. A
deposit on an empty ledger cannot fail, so a ledger is never left behind by a
failing record.

## Model

| member | source | states |
|---|---|---|
| Transactions.ClientId.Deref | src/transaction.rs:82-88 | the integer a client id dereferences to rebuilds that same id |
| Transactions.TransactionId.Deref | src/transaction.rs:99-105 | the integer a transaction id dereferences to rebuilds that same id |
| Transactions.ClientIdFrom | src/transaction.rs:76-80 | the id built from a `u16` dereferences back to it |
| Transactions.TransactionIdFrom | src/transaction.rs:93-97 | the id built from a `u32` dereferences back to it |
| Transactions.IdentifierRoundTrip | src/transaction.rs:74-105 | `ClientId::from` followed by deref gives back the `u16`, and the other way round; the same holds for `TransactionId` and `u32` |
| Transactions.TypeFromStr | src/transaction.rs:59-70 | any failure is the type-field parse error |
| Transactions.TypeFromStrExact | src/transaction.rs:59-70 | a string maps to a variant if and only if it is exactly that variant's lower-case name, so all other strings are errors |
| Transactions.ParseUnsigned | src/transaction.rs:24-31 | a parsed integer is always below the bound of its width |
| Transactions.ParseU16 | src/transaction.rs:24-27 | `parse::<u16>`: accepted text spells the value returned (an optional '+', leading zeros, then the digits), and every text spelling a number below 2^16 is accepted as that number |
| Transactions.ParseU32 | src/transaction.rs:28-31 | `parse::<u32>`: accepted text spells the value returned, and every text spelling a number below 2^32 is accepted as that number |
| Transactions.ParseUnsignedSound | src/transaction.rs:24-31 | whatever the integer parser accepts is an optional '+', then zeros, then the decimal spelling of the number it returns |
| Transactions.ParseUnsignedComplete | src/transaction.rs:24-31 | every text that spells a number below the bound is accepted as exactly that number |
| Transactions.ParseZerosThenDecimal | src/transaction.rs:24-31 | an in-range number written with any number of leading zeros, with or without a leading '+', parses back to that number |
| Transactions.ParseDigits | src/transaction.rs:24-31 | a non-empty digit string below the bound, with or without a leading '+', reads as its value |
| Transactions.NoDigitsRejected | src/transaction.rs:24-31 | empty text and a bare '+' are rejected |
| Transactions.StrayCharRejected | src/transaction.rs:24-31 | text holding any non-digit other than one leading '+' (a '-' sign, a space, a second '+') is rejected |
| Transactions.LeadingZerosValue | src/transaction.rs:24-31 | leading zeros do not change the value of a digit string |
| Transactions.DigitsAreZerosThenDecimal | src/transaction.rs:24-31 | every non-empty digit string is zeros followed by the decimal spelling of its value |
| Transactions.OutOfRangeRejected | src/transaction.rs:24-31 | a digit string whose value does not fit the width is rejected |
| Transactions.DecimalIsDigits | src/transaction.rs:24-31 | the decimal spelling of `n` is a non-empty digit string whose value is `n` |
| Transactions.FromFields | src/transaction.rs:17-46 | a field count other than 3 or 4 is a field-count error; on success the type, client, tx and amount come from fields 0, 1, 2 and 3, and with 3 fields the amount is 0; a bad type, client, transaction or amount field, checked in that order, gives that field's parse error |
| Transactions.FromFieldsAccepts | src/transaction.rs:17-46 | when every field reads, the result is exactly the record built from the values read |
| Transactions.ClientIdOutOfRange | src/transaction.rs:24-27 | a client id beyond the `u16` range makes the record a client-field error |
| Transactions.TransactionIdOutOfRange | src/transaction.rs:28-31 | a transaction id beyond the `u32` range makes the record a transaction-field error |
| Ledger.EmptyIsValid | src/client.rs:7-22 | the default ledger (all zero, unlocked, no history) satisfies the invariant |
| Ledger.Deposit | src/client.rs:41-54 | fails exactly when the account is locked or the id is known, with the lock error checked first |
| Ledger.Withdraw | src/client.rs:56-73 | fails exactly when the account is locked, the id is known or the amount exceeds available, with the errors checked in that order |
| Ledger.Dispute | src/client.rs:75-101 | fails exactly when the account is locked, the id is under dispute, the id is settled, or the id is recorded with an amount above available; the error is the first of these checks to fail |
| Ledger.Resolve | src/client.rs:103-129 | fails exactly when the account is locked, the id is not under dispute, or available is below minus its amount; the error is the first of these checks to fail |
| Ledger.Chargeback | src/client.rs:131-152 | fails exactly when the account is locked (the lock error) or the id is not under dispute |
| Ledger.DepositKeepsInvariant | src/client.rs:41-54 | a successful deposit keeps the invariant; with a non-negative amount it also keeps `available >= 0` |
| Ledger.WithdrawKeepsInvariant | src/client.rs:56-73 | a successful withdrawal keeps the invariant and `available >= 0` |
| Ledger.DisputeKeepsInvariant | src/client.rs:75-101 | a successful dispute keeps the invariant and `available >= 0` |
| Ledger.ResolveKeepsInvariant | src/client.rs:103-129 | a successful resolve keeps the invariant and `available >= 0` |
| Ledger.ChargebackKeepsInvariant | src/client.rs:131-152 | a successful chargeback keeps the invariant and `available >= 0` |
| Ledger.BalancesMoveTogether | src/client.rs:41-152 | deposit and withdraw move available and total by the same signed amount; dispute and resolve move funds between available and held and leave total alone; chargeback takes the disputed signed amount from both held and total |
| Ledger.LockedIsTerminal | src/client.rs:41-152 | on a locked account all five operations fail with `AccountLocked`, so the state stays as it is |
| Ledger.OnlyChargebackLocks | src/client.rs:41-152 | a successful deposit, withdrawal, dispute or resolve leaves the account unlocked; a successful chargeback locks it |
| Ledger.SharedIdSpace | src/client.rs:41-73 | a deposit stores `+amount` and a withdrawal `-amount` under the id; after either, a deposit or withdrawal with that id is refused as a duplicate |
| Ledger.UnknownDisputeIsNoOp | src/client.rs:86-89 | on an unlocked account, disputing an unrecorded id that is neither under dispute nor settled succeeds and changes nothing |
| Ledger.DisputeResolveRoundTrip | src/client.rs:95-126 | a dispute followed by a resolve of the same id restores available, held and total exactly; the id becomes settled, and disputing it again fails as already reversed |
| Ledger.DisputeChargebackReverses | src/client.rs:143-149 | a dispute followed by a chargeback subtracts the transaction's signed amount from available and total (funds lost for a deposit, funds returned for a withdrawal), leaves held as it was, locks the account and settles the id |
| Ledger.DisputeLifecycle | src/client.rs:75-152 | a settled id can never be disputed again, and an id not under dispute can be neither resolved nor charged back |
| Client.ClientData.constructor | src/client.rs:7-22 | the default ledger is the empty value and is consistent |
| Client.ClientData.Available | src/client.rs:25-27 | available is total minus held |
| Client.ClientData.Held | src/client.rs:29-31 | held is the sum of the amounts under dispute |
| Client.ClientData.Total | src/client.rs:33-35 | total is available plus held and, while unlocked, the sum of all recorded amounts |
| Client.ClientData.IsLocked | src/client.rs:37-39 | while the account is not locked, its total is the sum of every recorded signed amount |
| Client.ClientData.Deposit | src/client.rs:41-54 | the fields end as `Ledger.Deposit` says; on failure the error is returned and nothing changes; the invariant is kept |
| Client.ClientData.Withdraw | src/client.rs:56-73 | the fields end as `Ledger.Withdraw` says; on failure nothing changes; the invariant is kept |
| Client.ClientData.Dispute | src/client.rs:75-101 | the fields end as `Ledger.Dispute` says; on failure nothing changes; the invariant is kept |
| Client.ClientData.Resolve | src/client.rs:103-129 | the fields end as `Ledger.Resolve` says; on failure nothing changes; the invariant is kept, so the lookup the source marks unreachable never misses |
| Client.ClientData.Chargeback | src/client.rs:131-152 | the fields end as `Ledger.Chargeback` says; on failure nothing changes; the invariant is kept, so the lookup the source marks unreachable never misses |
| Routing.Dispatch | src/engine.rs:31-37 | the record's operation keeps the dispute bookkeeping known |
| Routing.Step | src/engine.rs:21-37 | a negative amount fails with `NegativeAmount`; a non-deposit for an unknown client fails with `UnknownClient`; a success adds at most the record's client and leaves every other client's ledger unchanged |
| Routing.StepDispatches | src/engine.rs:31-37 | a record that passes the router's checks gets exactly the operation its type names, on its client's ledger, with its id and amount; the step succeeds or fails exactly as that operation does |
| Routing.StepPerforms | src/engine.rs:23-37 | when the operation fails, the client existed and its ledger is unchanged; otherwise the step's outcome is the operation's outcome, stored under the record's client |
| Routing.StepThroughTarget | src/engine.rs:23-37 | putting the record's ledger in place and then running its operation on it gives exactly the step's outcome; a failure leaves every ledger as it was, including for a client not seen before |
| Routing.FirstDepositCreatesLedger | src/engine.rs:23-32 | a deposit by an unseen client creates a ledger that holds just that deposit |
| Routing.Target | src/engine.rs:23-29 | the ledger a record goes to, the client's own or the empty default for a client not seen yet, knows its disputed ids when every ledger does |
| Routing.TargetValid | src/engine.rs:23-24 | the ledger a record goes to, existing or fresh, is valid |
| Routing.DispatchKeepsValid | src/engine.rs:31-37 | with a non-negative amount, every operation keeps a valid ledger valid |
| Routing.StepOkUpdates | src/engine.rs:23-37 | a successful step replaces the client's ledger with the operation's result |
| Routing.StepResultValid | src/engine.rs:21-37 | the ledgers after a successful step are all valid |
| Routing.StepKeepsValid | src/engine.rs:21-37 | a step keeps every ledger valid |
| Routing.Run | src/engine.rs:18-38 | a run keeps every ledger's dispute bookkeeping known |
| Routing.RunAppend | src/engine.rs:18-38 | records are applied in order: running `a + b` is running `a` and then, if that succeeded, `b` |
| Routing.FailureKeepsPrefix | src/engine.rs:18-38 | when a record fails, the run ends with its error, every earlier record's effect is kept, and no later record is applied |
| Routing.FailedRunStoppedAtRecord | src/engine.rs:18-38 | a failed run stopped at some record `k`: the records before `k` succeeded and left the final ledgers, and record `k` failed with the run's error |
| Routing.RunKeepsValid | src/engine.rs:18-38 | every ledger is valid after any run, including one that stopped at a failure |
| Routing.RunOutcomeValid | src/engine.rs:18-38 | valid ledgers at the start of a run give valid ledgers at its end, whatever its outcome |
| Routing.RunTouchesOnlyNamedClients | src/engine.rs:23-37 | a run creates ledgers only for clients its records name, and a client no record names keeps its ledger |
| Routing.DisputedWithdrawalHoldsNegative | src/engine.rs:18-38 | deposit 1.0, withdraw 0.5, then dispute the withdrawal: available is 1.0, held is -0.5 and total is 0.5 |
| Routing.ChargebackThenDepositFails | src/engine.rs:18-38 | deposit, dispute, chargeback: the account is empty and locked, and a later deposit stops the run with `AccountLocked` |
| Routing.WithdrawalByUnknownClientFails | src/engine.rs:26-28 | a withdrawal with no prior deposit fails with `UnknownClient` and creates no ledger |
| Engine.Engine.constructor | src/engine.rs:8-11 | a new engine, as `Engine::default()`, has no clients and owns no ledger objects, so it can then be given records |
| Engine.Engine.LedgerFor | src/engine.rs:23-29 | fails with `UnknownClient` exactly for a non-deposit record of an unseen client, changing nothing; otherwise returns the client's ledger, created empty for a deposit by an unseen client |
| Engine.Engine.AddClient | src/engine.rs:24 | the new ledger object is stored under its client and under no other; every other client keeps its ledger |
| Engine.Engine.ApplyTo | src/engine.rs:31-37 | the record's operation runs on client `k`'s ledger object as `Routing.Dispatch` says, and no other ledger changes |
| Engine.Engine.Apply | src/engine.rs:21-37 | one record moves the engine's ledgers exactly as `Routing.Step` says: on success to its result, on failure (including a negative amount or an unknown client) nowhere, with the same error |
| Engine.Engine.ApplyTransactions | src/engine.rs:18-38 | the loop ends with exactly the result and the ledgers of `Routing.Run` on the input; every ledger stays consistent, and ledgers that start valid (`available >= 0` included) end valid |
| Engine.Replay | src/main.rs:12-14 | a fresh engine fed a whole input ends with exactly the outcome and ledgers of `Routing.Run` from no clients, and every ledger is valid |
| Engine.Call | src/engine.rs:31-37 | calls the ledger method that the record's type names, with the record's id and amount, and the object's new state is what `Routing.Dispatch` gives |

## Left out

- Opening the CSV file and `rdr.deserialize()` (src/engine.rs:15-20) are file I/O and serde. The loop takes a `seq<Transaction>` instead, so a read or deserialization failure, which aborts the source's loop, is not modelled.
- `print_summary` (src/engine.rs:43-56) only writes to stdout, in the map's iteration order. The balances it prints are the getters of `Client.ClientData`.
- The command-line argument check of `main` (src/main.rs:9-10) is process plumbing. Its creation of an engine and its call of `apply_transactions` (src/main.rs:12-14) are `Engine.Replay`, with the file name replaced by the records.
- `Amount` is `f32` in the source. Here amounts are exact integers in ten-thousandths, so rounding, NaN and infinities are not modelled.
- `parse::<f32>` for the amount field (src/transaction.rs:34) is a parameter of `Transactions.FromFields` that may fail, because decimal text to floating point is outside the model.
- `anyhow` error messages become constructors of `Errors.Error`; the message text, which includes the offending field, is not modelled.
