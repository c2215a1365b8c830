/** The per-client ledger as a value: its state, the five operations as functions
    from the old state to the new one (or to the error that leaves the state as it
    was), and the invariants those operations keep. The class `Client.ClientData`
    performs the same operations in place and is specified by these functions. */
module Ledger {
  import opened Errors
  import opened Transactions

  datatype LedgerState = LedgerState(
    available: Amount,
    held: Amount,
    total: Amount,
    locked: bool,
    // signed amount of every accepted deposit (+) and withdrawal (-)
    transactions: map<TransactionId, Amount>,
    // ids whose funds are currently moved from available to held
    inDispute: set<TransactionId>,
    // ids whose dispute has been resolved or charged back
    disputed: set<TransactionId>)

  /** A client's ledger before its first record: empty and unlocked. */
  const Empty := LedgerState(0, 0, 0, false, map[], {}, {})

  /** What resolve and chargeback in chain_tx's Rust code take for granted
      (they call `unreachable!` otherwise) when they look up a disputed id. */
  predicate DisputesKnown(s: LedgerState) {
    s.inDispute <= s.transactions.Keys
  }

  // ---------------------------------------------------------------------------
  // Sums of amounts over sets of ids.

  function AmountOf(amounts: map<TransactionId, Amount>, id: TransactionId): (a: Amount) {
    if id in amounts then amounts[id] else 0
  }

  ghost function Sum(amounts: map<TransactionId, Amount>, ids: set<TransactionId>): (total: Amount)
    decreases ids
  {
    if ids == {} then 0
    else
      var id :| id in ids;
      AmountOf(amounts, id) + Sum(amounts, ids - {id})
  }

  /** Any element can be taken out of a sum first. */
  lemma {:induction false} SumRemove(amounts: map<TransactionId, Amount>, ids: set<TransactionId>, y: TransactionId)
    requires y in ids
    ensures Sum(amounts, ids) == AmountOf(amounts, y) + Sum(amounts, ids - {y})
    decreases ids
  {
    var x :| x in ids && Sum(amounts, ids) == AmountOf(amounts, x) + Sum(amounts, ids - {x});
    if x != y {
      SumRemove(amounts, ids - {x}, y);
      SumRemove(amounts, ids - {y}, x);
      assert ids - {x} - {y} == ids - {y} - {x};
    }
  }

  lemma SumAdd(amounts: map<TransactionId, Amount>, ids: set<TransactionId>, y: TransactionId)
    requires y !in ids
    ensures Sum(amounts, ids + {y}) == AmountOf(amounts, y) + Sum(amounts, ids)
  {
    SumRemove(amounts, ids + {y}, y);
    assert ids + {y} - {y} == ids;
  }

  /** A sum only depends on the amounts of the ids summed over. */
  lemma {:induction false} SumAgree(a: map<TransactionId, Amount>, b: map<TransactionId, Amount>, ids: set<TransactionId>)
    requires forall id :: id in ids ==> AmountOf(a, id) == AmountOf(b, id)
    ensures Sum(a, ids) == Sum(b, ids)
    decreases ids
  {
    if ids != {} {
      var x :| x in ids && Sum(a, ids) == AmountOf(a, x) + Sum(a, ids - {x});
      SumRemove(b, ids, x);
      SumAgree(a, b, ids - {x});
    }
  }

  // ---------------------------------------------------------------------------
  // Invariants.

  /** What every operation keeps, whatever the sign of the amounts it is given:
      total is available plus held; every disputed or settled id is a recorded
      transaction; no id is both under dispute and settled; held is exactly the
      sum of the amounts under dispute; and as long as no chargeback has
      happened, total is the sum of every recorded signed amount. */
  ghost predicate Consistent(s: LedgerState) {
    && s.total == s.available + s.held
    && s.inDispute <= s.transactions.Keys
    && s.disputed <= s.transactions.Keys
    && s.inDispute !! s.disputed
    && s.held == Sum(s.transactions, s.inDispute)
    && (!s.locked ==> s.total == Sum(s.transactions, s.transactions.Keys))
  }

  /** Consistent, and available funds are never negative. */
  ghost predicate Valid(s: LedgerState) {
    Consistent(s) && s.available >= 0
  }

  lemma EmptyIsValid()
    ensures Valid(Empty)
  {
  }

  // ---------------------------------------------------------------------------
  // The five operations. Each checks all of its guards, in the order of
  // chain_tx's Rust code, before it changes anything.

  function Deposit(s: LedgerState, id: TransactionId, amount: Amount): (r: Result<LedgerState>)
    ensures r.Err? <==> s.locked || id in s.transactions
    ensures r.Err? ==> r.error == (if s.locked then AccountLocked else DuplicateTransaction)
    ensures DisputesKnown(s) && r.Ok? ==> DisputesKnown(r.value)
  {
    if s.locked then Err(AccountLocked)
    else if id in s.transactions then Err(DuplicateTransaction)
    else Ok(s.(available := s.available + amount,
               total := s.total + amount,
               transactions := s.transactions[id := amount]))
  }

  function Withdraw(s: LedgerState, id: TransactionId, amount: Amount): (r: Result<LedgerState>)
    ensures r.Err? <==> s.locked || id in s.transactions || amount > s.available
    ensures r.Err? ==> r.error == (if s.locked then AccountLocked
                                   else if id in s.transactions then DuplicateTransaction
                                   else InsufficientForWithdrawal)
    ensures DisputesKnown(s) && r.Ok? ==> DisputesKnown(r.value)
  {
    if s.locked then Err(AccountLocked)
    else if id in s.transactions then Err(DuplicateTransaction)
    else if amount > s.available then Err(InsufficientForWithdrawal)
    else Ok(s.(available := s.available - amount,
               total := s.total - amount,
               transactions := s.transactions[id := -amount]))
  }

  function Dispute(s: LedgerState, id: TransactionId): (r: Result<LedgerState>)
    ensures r.Err? <==> s.locked || id in s.inDispute || id in s.disputed
                        || (id in s.transactions && s.available < s.transactions[id])
    ensures r.Err? ==> r.error == (if s.locked then AccountLocked
                                   else if id in s.inDispute then AlreadyInDispute
                                   else if id in s.disputed then AlreadyReversed
                                   else InsufficientForDispute)
    ensures DisputesKnown(s) && r.Ok? ==> DisputesKnown(r.value)
  {
    if s.locked then Err(AccountLocked)
    else if id in s.inDispute then Err(AlreadyInDispute)
    else if id in s.disputed then Err(AlreadyReversed)
    else if id !in s.transactions then Ok(s)
    else
      var amount := s.transactions[id];
      if s.available < amount then Err(InsufficientForDispute)
      else Ok(s.(available := s.available - amount,
                 held := s.held + amount,
                 inDispute := s.inDispute + {id}))
  }

  function Resolve(s: LedgerState, id: TransactionId): (r: Result<LedgerState>)
    requires DisputesKnown(s)
    ensures r.Err? <==> s.locked || id !in s.inDispute || s.available < -s.transactions[id]
    ensures r.Err? ==> r.error == (if s.locked then AccountLocked
                                   else if id !in s.inDispute then NotInDispute
                                   else InsufficientForResolve)
    ensures r.Ok? ==> DisputesKnown(r.value)
  {
    if s.locked then Err(AccountLocked)
    else if id !in s.inDispute then Err(NotInDispute)
    else
      var amount := s.transactions[id];
      if s.available < -amount then Err(InsufficientForResolve)
      else Ok(s.(held := s.held - amount,
                 available := s.available + amount,
                 inDispute := s.inDispute - {id},
                 disputed := s.disputed + {id}))
  }

  function Chargeback(s: LedgerState, id: TransactionId): (r: Result<LedgerState>)
    requires DisputesKnown(s)
    ensures r.Err? <==> s.locked || id !in s.inDispute
    ensures r.Err? ==> r.error == (if s.locked then AccountLocked else NotInDispute)
    ensures r.Ok? ==> DisputesKnown(r.value)
  {
    if s.locked then Err(AccountLocked)
    else if id !in s.inDispute then Err(NotInDispute)
    else
      var amount := s.transactions[id];
      Ok(s.(held := s.held - amount,
            total := s.total - amount,
            locked := true,
            inDispute := s.inDispute - {id},
            disputed := s.disputed + {id}))
  }

  /** The new state and the method's result agree with the ledger function:
      success gives the function's state, failure gives its error and leaves
      the state as it was. */
  predicate Performs(spec: Result<LedgerState>, before: LedgerState,
                     r: Result<()>, after: LedgerState)
  {
    match spec
    case Ok(s) => r == Ok(()) && after == s
    case Err(e) => r == Err(e) && after == before
  }

  // ---------------------------------------------------------------------------
  // Each operation keeps the invariants.

  lemma DepositKeepsInvariant(s: LedgerState, id: TransactionId, amount: Amount)
    requires Consistent(s)
    ensures Deposit(s, id, amount).Ok? ==> Consistent(Deposit(s, id, amount).value)
    ensures Deposit(s, id, amount).Ok? && s.available >= 0 && amount >= 0 ==> Valid(Deposit(s, id, amount).value)
  {
    if Deposit(s, id, amount).Ok? {
      var t := s.transactions[id := amount];
      SumAgree(s.transactions, t, s.inDispute);
      SumAgree(s.transactions, t, s.transactions.Keys);
      SumAdd(t, s.transactions.Keys, id);
      assert t.Keys == s.transactions.Keys + {id};
    }
  }

  lemma WithdrawKeepsInvariant(s: LedgerState, id: TransactionId, amount: Amount)
    requires Consistent(s)
    ensures Withdraw(s, id, amount).Ok? ==> Consistent(Withdraw(s, id, amount).value)
    ensures Withdraw(s, id, amount).Ok? && s.available >= 0 ==> Valid(Withdraw(s, id, amount).value)
  {
    if Withdraw(s, id, amount).Ok? {
      var t := s.transactions[id := -amount];
      SumAgree(s.transactions, t, s.inDispute);
      SumAgree(s.transactions, t, s.transactions.Keys);
      SumAdd(t, s.transactions.Keys, id);
      assert t.Keys == s.transactions.Keys + {id};
    }
  }

  lemma DisputeKeepsInvariant(s: LedgerState, id: TransactionId)
    requires Consistent(s)
    ensures Dispute(s, id).Ok? ==> Consistent(Dispute(s, id).value)
    ensures Dispute(s, id).Ok? && s.available >= 0 ==> Valid(Dispute(s, id).value)
  {
    if Dispute(s, id).Ok? && id in s.transactions {
      SumAdd(s.transactions, s.inDispute, id);
    }
  }

  lemma ResolveKeepsInvariant(s: LedgerState, id: TransactionId)
    requires Consistent(s)
    ensures Resolve(s, id).Ok? ==> Consistent(Resolve(s, id).value)
    ensures Resolve(s, id).Ok? && s.available >= 0 ==> Valid(Resolve(s, id).value)
  {
    if Resolve(s, id).Ok? {
      SumRemove(s.transactions, s.inDispute, id);
    }
  }

  lemma ChargebackKeepsInvariant(s: LedgerState, id: TransactionId)
    requires Consistent(s)
    ensures Chargeback(s, id).Ok? ==> Consistent(Chargeback(s, id).value)
    ensures Chargeback(s, id).Ok? && s.available >= 0 ==> Valid(Chargeback(s, id).value)
  {
    if Chargeback(s, id).Ok? {
      SumRemove(s.transactions, s.inDispute, id);
    }
  }

  // ---------------------------------------------------------------------------
  // Properties of the operations.

  /** Every successful operation changes total by exactly the sum of what it
      changes in available and held; deposit and withdraw move available and
      total by the amount, chargeback moves held and total by the disputed amount. */
  lemma BalancesMoveTogether(s: LedgerState, id: TransactionId, amount: Amount)
    requires DisputesKnown(s)
    ensures Deposit(s, id, amount).Ok? ==>
      var n := Deposit(s, id, amount).value;
      n.available - s.available == n.total - s.total == amount && n.held == s.held
    ensures Withdraw(s, id, amount).Ok? ==>
      var n := Withdraw(s, id, amount).value;
      n.available - s.available == n.total - s.total == -amount && n.held == s.held
    ensures Dispute(s, id).Ok? ==>
      var n := Dispute(s, id).value;
      n.total == s.total && n.available - s.available == s.held - n.held
    ensures Resolve(s, id).Ok? ==>
      var n := Resolve(s, id).value;
      n.total == s.total && n.available - s.available == s.held - n.held
    ensures Chargeback(s, id).Ok? ==>
      var n := Chargeback(s, id).value;
      n.available == s.available && n.held - s.held == n.total - s.total == -s.transactions[id]
  {
  }

  /** A locked account refuses every operation, and so is never unlocked. */
  lemma LockedIsTerminal(s: LedgerState, id: TransactionId, amount: Amount)
    requires s.locked && DisputesKnown(s)
    ensures Deposit(s, id, amount) == Err(AccountLocked)
    ensures Withdraw(s, id, amount) == Err(AccountLocked)
    ensures Dispute(s, id) == Err(AccountLocked)
    ensures Resolve(s, id) == Err(AccountLocked)
    ensures Chargeback(s, id) == Err(AccountLocked)
  {
  }

  /** Only a chargeback sets the lock; the other four leave it as it was. */
  lemma OnlyChargebackLocks(s: LedgerState, id: TransactionId, amount: Amount)
    requires DisputesKnown(s)
    ensures Deposit(s, id, amount).Ok? ==> !Deposit(s, id, amount).value.locked
    ensures Withdraw(s, id, amount).Ok? ==> !Withdraw(s, id, amount).value.locked
    ensures Dispute(s, id).Ok? ==> !Dispute(s, id).value.locked
    ensures Resolve(s, id).Ok? ==> !Resolve(s, id).value.locked
    ensures Chargeback(s, id).Ok? ==> Chargeback(s, id).value.locked
  {
  }

  /** Deposits and withdrawals share one id space and store the signed amount:
      once an id is recorded by either, a second deposit or withdrawal with that
      id is refused and leaves the state as the first one left it. */
  lemma SharedIdSpace(s: LedgerState, id: TransactionId, amount: Amount, again: Amount)
    ensures Deposit(s, id, amount).Ok? ==>
      var n := Deposit(s, id, amount).value;
      && n.transactions == s.transactions[id := amount]
      && Deposit(n, id, again) == Err(DuplicateTransaction)
      && Withdraw(n, id, again) == Err(DuplicateTransaction)
    ensures Withdraw(s, id, amount).Ok? ==>
      var n := Withdraw(s, id, amount).value;
      && n.transactions == s.transactions[id := -amount]
      && Deposit(n, id, again) == Err(DuplicateTransaction)
      && Withdraw(n, id, again) == Err(DuplicateTransaction)
  {
  }

  /** Disputing an id the ledger never recorded succeeds and changes nothing,
      provided the account is unlocked and the id is not in either dispute set;
      in a consistent ledger that proviso is just "unlocked". */
  lemma UnknownDisputeIsNoOp(s: LedgerState, id: TransactionId)
    requires !s.locked && id !in s.transactions
    ensures id !in s.inDispute && id !in s.disputed ==> Dispute(s, id) == Ok(s)
    ensures Consistent(s) ==> Dispute(s, id) == Ok(s)
  {
  }

  /** A dispute followed by a resolve of the same recorded id gives back the
      balances from before the dispute; the id is then settled, and disputing it
      again fails. */
  lemma DisputeResolveRoundTrip(s: LedgerState, id: TransactionId)
    requires Valid(s) && id in s.transactions
    requires Dispute(s, id).Ok?
    ensures Resolve(Dispute(s, id).value, id).Ok?
    ensures
      var n := Resolve(Dispute(s, id).value, id).value;
      && n.available == s.available && n.held == s.held && n.total == s.total
      && n.transactions == s.transactions && n.inDispute == s.inDispute
      && n.disputed == s.disputed + {id}
      && Dispute(n, id) == Err(AlreadyReversed)
  {
  }

  /** A dispute followed by a chargeback subtracts the transaction's signed
      amount from available and total for good and locks the account. For a
      disputed deposit that takes funds away; for a disputed withdrawal, whose
      signed amount is negative, it gives them back. */
  lemma DisputeChargebackReverses(s: LedgerState, id: TransactionId)
    requires Consistent(s) && id in s.transactions
    requires Dispute(s, id).Ok?
    ensures Chargeback(Dispute(s, id).value, id).Ok?
    ensures
      var n := Chargeback(Dispute(s, id).value, id).value;
      && n.available == s.available - s.transactions[id] && n.held == s.held
      && n.total == s.total - s.transactions[id] && n.locked
      && id in n.disputed && id !in n.inDispute
  {
  }

  /** Each id goes Fresh -> Disputed -> Settled and never back: a settled id can
      never be disputed again, and only a disputed id can be resolved or charged back. */
  lemma DisputeLifecycle(s: LedgerState, id: TransactionId)
    requires Consistent(s) && !s.locked
    ensures id in s.disputed ==> Dispute(s, id) == Err(AlreadyReversed)
    ensures id !in s.inDispute ==> Resolve(s, id) == Err(NotInDispute) && Chargeback(s, id) == Err(NotInDispute)
  {
  }
}
