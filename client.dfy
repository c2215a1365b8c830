/** One client's ledger as a mutable object, as chain_tx's Rust code keeps it.
    Each method runs that code's guards and then updates the fields in place;
    its contract ties the outcome to the matching function of module `Ledger`,
    whose lemmas give the invariants. */
module Client {
  import opened Errors
  import opened Transactions
  import Ledger

  class ClientData {
    var available: Amount
    var held: Amount
    var total: Amount
    var locked: bool
    var transactions: map<TransactionId, Amount>
    var inDispute: set<TransactionId>
    var disputed: set<TransactionId>

    /** The fields as a ledger value. */
    function State(): (s: Ledger.LedgerState)
      reads this
    {
      Ledger.LedgerState(available, held, total, locked, transactions, inDispute, disputed)
    }

    ghost predicate Valid()
      reads this
    {
      Ledger.Consistent(State())
    }

    /** The default ledger: empty and unlocked. */
    constructor ()
      ensures State() == Ledger.Empty && Valid()
    {
      available, held, total, locked := 0, 0, 0, false;
      transactions, inDispute, disputed := map[], {}, {};
    }

    function Available(): (a: Amount)
      reads this
      requires Valid()
      ensures a == total - held
    {
      available
    }

    function Held(): (h: Amount)
      reads this
      requires Valid()
      ensures h == Ledger.Sum(transactions, inDispute)
    {
      held
    }

    function Total(): (t: Amount)
      reads this
      requires Valid()
      ensures t == Available() + Held()
      ensures !IsLocked() ==> t == Ledger.Sum(transactions, transactions.Keys)
    {
      total
    }

    /** Whether a chargeback has frozen the account; while it has not, the
        total is still the sum of every recorded amount. */
    function IsLocked(): (l: bool)
      reads this
      ensures Valid() && !l ==> total == Ledger.Sum(transactions, transactions.Keys)
    {
      locked
    }

    method Deposit(id: TransactionId, amount: Amount) returns (r: Result<()>)
      requires Valid()
      modifies this
      ensures Valid()
      ensures Ledger.Performs(Ledger.Deposit(old(State()), id, amount), old(State()), r, State())
    {
      Ledger.DepositKeepsInvariant(State(), id, amount);
      if locked {
        return Err(AccountLocked);
      }
      if id in transactions {
        return Err(DuplicateTransaction);
      }
      available := available + amount;
      total := total + amount;
      transactions := transactions[id := amount];
      return Ok(());
    }

    method Withdraw(id: TransactionId, amount: Amount) returns (r: Result<()>)
      requires Valid()
      modifies this
      ensures Valid()
      ensures Ledger.Performs(Ledger.Withdraw(old(State()), id, amount), old(State()), r, State())
    {
      Ledger.WithdrawKeepsInvariant(State(), id, amount);
      if locked {
        return Err(AccountLocked);
      }
      if id in transactions {
        return Err(DuplicateTransaction);
      }
      if amount > available {
        return Err(InsufficientForWithdrawal);
      }
      available := available - amount;
      total := total - amount;
      transactions := transactions[id := -amount];
      return Ok(());
    }

    method Dispute(id: TransactionId) returns (r: Result<()>)
      requires Valid()
      modifies this
      ensures Valid()
      ensures Ledger.Performs(Ledger.Dispute(old(State()), id), old(State()), r, State())
    {
      Ledger.DisputeKeepsInvariant(State(), id);
      if locked {
        return Err(AccountLocked);
      }
      if id in inDispute {
        return Err(AlreadyInDispute);
      }
      if id in disputed {
        return Err(AlreadyReversed);
      }
      if id !in transactions {
        // an id this ledger never recorded: accepted without effect
        return Ok(());
      }
      var amount := transactions[id];
      if available < amount {
        return Err(InsufficientForDispute);
      }
      available := available - amount;
      held := held + amount;
      inDispute := inDispute + {id};
      return Ok(());
    }

    method Resolve(id: TransactionId) returns (r: Result<()>)
      requires Valid()
      modifies this
      ensures Valid()
      ensures Ledger.Performs(Ledger.Resolve(old(State()), id), old(State()), r, State())
    {
      Ledger.ResolveKeepsInvariant(State(), id);
      if locked {
        return Err(AccountLocked);
      }
      if id !in inDispute {
        return Err(NotInDispute);
      }
      // Valid() puts every disputed id among the recorded transactions, so the
      // lookup cannot miss
      var amount := transactions[id];
      if available < -amount {
        return Err(InsufficientForResolve);
      }
      held := held - amount;
      available := available + amount;
      inDispute := inDispute - {id};
      disputed := disputed + {id};
      return Ok(());
    }

    method Chargeback(id: TransactionId) returns (r: Result<()>)
      requires Valid()
      modifies this
      ensures Valid()
      ensures Ledger.Performs(Ledger.Chargeback(old(State()), id), old(State()), r, State())
    {
      Ledger.ChargebackKeepsInvariant(State(), id);
      if locked {
        return Err(AccountLocked);
      }
      if id !in inDispute {
        return Err(NotInDispute);
      }
      // as in Resolve, the lookup cannot miss
      var amount := transactions[id];
      held := held - amount;
      total := total - amount;
      locked := true;
      inDispute := inDispute - {id};
      disputed := disputed + {id};
      return Ok(());
    }
  }
}
