/** The router as a function on the map from client ids to ledger values: one
    record at a time (`Step`), and a whole input in order, stopping at the first
    failure (`Run`). The class `Engine.Engine` performs the same loop on ledger
    objects and is specified by these functions. */
module Routing {
  import opened Errors
  import opened Transactions
  import opened Ledger

  type Clients = map<ClientId, LedgerState>

  predicate AllDisputesKnown(clients: Clients) {
    forall c :: c in clients ==> DisputesKnown(clients[c])
  }

  ghost predicate AllValid(clients: Clients) {
    forall c :: c in clients ==> Valid(clients[c])
  }

  /** The ledger operation a record of type `ty` asks for. */
  function Dispatch(s: LedgerState, ty: TransactionType, id: TransactionId, amount: Amount): (r: Result<LedgerState>)
    requires DisputesKnown(s)
    ensures r.Ok? ==> DisputesKnown(r.value)
  {
    match ty
    case Deposit => Ledger.Deposit(s, id, amount)
    case Withdrawal => Ledger.Withdraw(s, id, amount)
    case Dispute => Ledger.Dispute(s, id)
    case Resolve => Ledger.Resolve(s, id)
    case Chargeback => Ledger.Chargeback(s, id)
  }

  /** The ledger a record is applied to: the client's own, or for a deposit by a
      client not seen yet a fresh empty one. */
  function Target(clients: Clients, c: ClientId): (s: LedgerState)
    ensures AllDisputesKnown(clients) ==> DisputesKnown(s)
  {
    if c in clients then clients[c] else Empty
  }

  /** The ledger a record goes to, existing or fresh, is valid when every
      existing ledger is. */
  lemma TargetValid(clients: Clients, c: ClientId)
    requires AllValid(clients)
    ensures Valid(Target(clients, c))
  {
    if c !in clients { EmptyIsValid(); }
  }

  /** One record: refuse a negative amount, refuse a non-deposit record for an
      unknown client, otherwise run the record's operation on the client's
      ledger. Success replaces that one ledger; failure changes nothing. */
  function Step(clients: Clients, tx: Transaction): (r: Result<Clients>)
    requires AllDisputesKnown(clients)
    ensures tx.amount < 0 ==> r == Err(NegativeAmount)
    ensures tx.amount >= 0 && tx.ty != Deposit && tx.client !in clients ==> r == Err(UnknownClient)
    ensures r.Ok? ==> tx.amount >= 0 && (tx.client in clients || tx.ty == Deposit)
    ensures r.Ok? ==> r.value.Keys == clients.Keys + {tx.client}
    ensures r.Ok? ==> forall c :: c in clients && c != tx.client ==> r.value[c] == clients[c]
    ensures r.Ok? ==> AllDisputesKnown(r.value)
  {
    if tx.amount < 0 then Err(NegativeAmount)
    else if tx.ty != Deposit && tx.client !in clients then Err(UnknownClient)
    else
      match Dispatch(Target(clients, tx.client), tx.ty, tx.tx, tx.amount)
      case Ok(ledger) => Ok(clients[tx.client := ledger])
      case Err(e) => Err(e)
  }

  /** A record that gets past the router's own checks is handed to exactly the
      operation its type names, on its client's ledger, with its id and amount;
      the step's outcome is that operation's outcome. */
  lemma StepDispatches(clients: Clients, tx: Transaction)
    requires AllDisputesKnown(clients)
    requires tx.amount >= 0 && (tx.ty == Deposit || tx.client in clients)
    ensures var d := Dispatch(Target(clients, tx.client), tx.ty, tx.tx, tx.amount);
      && (d.Ok? <==> Step(clients, tx).Ok?)
      && (d.Ok? ==> Step(clients, tx).value[tx.client] == d.value)
      && (d.Err? ==> Step(clients, tx).error == d.error)
  {
  }

  /** The step's outcome, in terms of what the record's operation does to the
      client's ledger. */
  lemma StepPerforms(clients: Clients, tx: Transaction, r: Result<()>, ledger: LedgerState)
    requires AllDisputesKnown(clients)
    requires tx.amount >= 0 && (tx.ty == Deposit || tx.client in clients)
    requires Performs(Dispatch(Target(clients, tx.client), tx.ty, tx.tx, tx.amount), Target(clients, tx.client), r, ledger)
    ensures r.Err? ==> tx.client in clients && ledger == clients[tx.client]
    ensures match Step(clients, tx)
            case Ok(next) => r == Ok(()) && next == clients[tx.client := ledger]
            case Err(e) => r == Err(e)
  {
  }

  /** The step's outcome when the record's ledger is first put in place (the
      client's own, or a fresh one) and the operation then runs on it. */
  lemma StepThroughTarget(clients: Clients, tx: Transaction, mid: Clients, r: Result<()>, after: Clients)
    requires AllDisputesKnown(clients)
    requires tx.amount >= 0 && (tx.ty == Deposit || tx.client in clients)
    requires mid == clients[tx.client := Target(clients, tx.client)]
    requires tx.client in after && after == mid[tx.client := after[tx.client]]
    requires Performs(Dispatch(mid[tx.client], tx.ty, tx.tx, tx.amount), mid[tx.client], r, after[tx.client])
    ensures match Step(clients, tx)
            case Ok(next) => r == Ok(()) && after == next
            case Err(e) => r == Err(e) && after == clients
  {
    var c := tx.client;
    UpdateTwice(clients, c, Target(clients, c), after[c]);
    StepPerforms(clients, tx, r, after[c]);
    if r.Err? {
      assert clients[c := clients[c]] == clients;
    }
  }

  /** A deposit by a client not seen yet creates that client's ledger holding
      just this deposit. */
  lemma FirstDepositCreatesLedger(clients: Clients, tx: Transaction)
    requires AllDisputesKnown(clients)
    requires tx.ty == Deposit && tx.amount >= 0 && tx.client !in clients
    ensures Step(clients, tx) == Ok(clients[tx.client :=
      LedgerState(tx.amount, 0, tx.amount, false, map[tx.tx := tx.amount], {}, {})])
  {
  }

  lemma DispatchKeepsValid(s: LedgerState, ty: TransactionType, id: TransactionId, amount: Amount)
    requires Valid(s) && amount >= 0
    ensures Dispatch(s, ty, id, amount).Ok? ==> Valid(Dispatch(s, ty, id, amount).value)
  {
    match ty
    case Deposit => DepositKeepsInvariant(s, id, amount);
    case Withdrawal => WithdrawKeepsInvariant(s, id, amount);
    case Dispute => DisputeKeepsInvariant(s, id);
    case Resolve => ResolveKeepsInvariant(s, id);
    case Chargeback => ChargebackKeepsInvariant(s, id);
  }

  lemma AllValidDisputesKnown(clients: Clients)
    requires AllValid(clients)
    ensures AllDisputesKnown(clients)
  {
    forall c | c in clients ensures DisputesKnown(clients[c]) {
      assert Valid(clients[c]);
    }
  }

  lemma StepOkUpdates(clients: Clients, tx: Transaction)
    requires AllDisputesKnown(clients) && Step(clients, tx).Ok?
    ensures tx.amount >= 0
    ensures Dispatch(Target(clients, tx.client), tx.ty, tx.tx, tx.amount).Ok?
    ensures Step(clients, tx).value ==
      clients[tx.client := Dispatch(Target(clients, tx.client), tx.ty, tx.tx, tx.amount).value]
  {
  }

  lemma UpdateKeepsAllValid(clients: Clients, c: ClientId, ledger: LedgerState)
    requires AllValid(clients) && Valid(ledger)
    ensures AllValid(clients[c := ledger])
  {
  }

  lemma StepResultValid(clients: Clients, tx: Transaction, next: Clients)
    requires AllValid(clients)
    requires AllDisputesKnown(clients) && Step(clients, tx) == Ok(next)
    ensures AllValid(next)
  {
    StepOkUpdates(clients, tx);
    var s := Target(clients, tx.client);
    TargetValid(clients, tx.client);
    DispatchKeepsValid(s, tx.ty, tx.tx, tx.amount);
    UpdateKeepsAllValid(clients, tx.client, Dispatch(s, tx.ty, tx.tx, tx.amount).value);
  }

  /** A successful step keeps every ledger valid. */
  lemma StepKeepsValid(clients: Clients, tx: Transaction)
    requires AllValid(clients)
    ensures AllDisputesKnown(clients)
    ensures Step(clients, tx).Ok? ==> AllValid(Step(clients, tx).value)
  {
    AllValidDisputesKnown(clients);
    if Step(clients, tx).Ok? {
      StepResultValid(clients, tx, Step(clients, tx).value);
    }
  }

  // ---------------------------------------------------------------------------
  // Whole runs.

  datatype RunOutcome = RunOutcome(result: Result<()>, clients: Clients)

  /** Records applied in order; the first failure ends the run with its error
      and the ledgers as the records before it left them. */
  function Run(clients: Clients, txs: seq<Transaction>): (o: RunOutcome)
    requires AllDisputesKnown(clients)
    ensures AllDisputesKnown(o.clients)
    decreases |txs|
  {
    if txs == [] then RunOutcome(Ok(()), clients)
    else
      match Step(clients, txs[0])
      case Err(e) => RunOutcome(Err(e), clients)
      case Ok(next) => Run(next, txs[1..])
  }

  /** Running two inputs one after the other is running their concatenation. */
  lemma {:induction false} RunAppend(clients: Clients, a: seq<Transaction>, b: seq<Transaction>)
    requires AllDisputesKnown(clients)
    ensures Run(clients, a + b) ==
      (var first := Run(clients, a);
       if first.result.Ok? then Run(first.clients, b) else first)
    decreases |a|
  {
    if a == [] {
      assert a + b == b;
    } else {
      assert (a + b)[0] == a[0] && (a + b)[1..] == a[1..] + b;
      if Step(clients, a[0]).Ok? {
        RunAppend(Step(clients, a[0]).value, a[1..], b);
      }
    }
  }

  /** The effects of the records before a failing one persist, and nothing after
      it is applied. */
  lemma FailureKeepsPrefix(clients: Clients, before: seq<Transaction>, bad: Transaction, after: seq<Transaction>)
    requires AllDisputesKnown(clients)
    requires Run(clients, before).result.Ok?
    requires Step(Run(clients, before).clients, bad).Err?
    ensures Run(clients, before + [bad] + after) ==
      RunOutcome(Err(Step(Run(clients, before).clients, bad).error), Run(clients, before).clients)
  {
    RunAppend(clients, before, [bad] + after);
    assert before + [bad] + after == before + ([bad] + after);
  }

  /** The run stopped at record `k`: the records before it all succeeded and left
      the ledgers as the run ends with, and record `k` failed with the run's error. */
  ghost predicate StoppedAt(clients: Clients, txs: seq<Transaction>, k: int) {
    && AllDisputesKnown(clients)
    && 0 <= k < |txs|
    && Run(clients, txs).result.Err?
    && Run(clients, txs[..k]).result.Ok?
    && Run(clients, txs[..k]).clients == Run(clients, txs).clients
    && Step(Run(clients, txs[..k]).clients, txs[k]) == Err(Run(clients, txs).result.error)
  }

  /** A failed run failed at one of its records. */
  lemma {:induction false} FailedRunStoppedAtRecord(clients: Clients, txs: seq<Transaction>)
    requires AllDisputesKnown(clients)
    requires Run(clients, txs).result.Err?
    ensures exists k :: StoppedAt(clients, txs, k)
    decreases |txs|
  {
    assert txs[..0] == [];
    match Step(clients, txs[0])
    case Err(e) =>
      assert StoppedAt(clients, txs, 0);
    case Ok(next) =>
      var rest := txs[1..];
      FailedRunStoppedAtRecord(next, rest);
      var k :| StoppedAt(next, rest, k);
      var prefix := txs[..k + 1];
      PrefixTail(txs, k);
      RunFirstOk(clients, prefix, next);
      RunFirstOk(clients, txs, next);
      assert txs[k + 1] == rest[k];
      assert StoppedAt(clients, txs, k + 1);
  }

  /** Dropping the first record of a prefix is taking a prefix of the tail. */
  lemma PrefixTail(txs: seq<Transaction>, k: nat)
    requires k < |txs|
    ensures txs[..k + 1][0] == txs[0] && txs[..k + 1][1..] == txs[1..][..k]
  {
  }

  /** A run whose first record succeeds goes on from that record's result. */
  lemma RunFirstOk(clients: Clients, txs: seq<Transaction>, next: Clients)
    requires AllDisputesKnown(clients) && txs != [] && Step(clients, txs[0]) == Ok(next)
    ensures AllDisputesKnown(next) && Run(clients, txs) == Run(next, txs[1..])
  {
  }

  /** Every ledger stays valid through any run. */
  lemma {:induction false} RunKeepsValid(clients: Clients, txs: seq<Transaction>)
    requires AllValid(clients)
    ensures AllDisputesKnown(clients)
    ensures AllValid(Run(clients, txs).clients)
    decreases |txs|
  {
    StepKeepsValid(clients, if txs == [] then Transaction(Deposit, ClientId(0), TransactionId(0), 0) else txs[0]);
    if txs != [] && Step(clients, txs[0]).Ok? {
      RunKeepsValid(Step(clients, txs[0]).value, txs[1..]);
    }
  }

  /** The same, for a run whose outcome is known: valid ledgers at the start
      give valid ledgers at the end. */
  lemma RunOutcomeValid(clients: Clients, txs: seq<Transaction>, o: RunOutcome)
    requires AllDisputesKnown(clients) && Run(clients, txs) == o
    ensures AllValid(clients) ==> AllValid(o.clients)
  {
    if AllValid(clients) {
      RunKeepsValid(clients, txs);
    }
  }

  /** A client named by no record of the input keeps its ledger, and the run
      creates ledgers only for clients the input names. */
  lemma {:induction false} RunTouchesOnlyNamedClients(clients: Clients, txs: seq<Transaction>, c: ClientId)
    requires AllDisputesKnown(clients)
    ensures c in Run(clients, txs).clients ==> c in clients || exists i :: 0 <= i < |txs| && txs[i].client == c
    ensures c in clients && (forall i :: 0 <= i < |txs| ==> txs[i].client != c) ==>
      c in Run(clients, txs).clients && Run(clients, txs).clients[c] == clients[c]
    decreases |txs|
  {
    if txs != [] && Step(clients, txs[0]).Ok? {
      var next := Step(clients, txs[0]).value;
      RunTouchesOnlyNamedClients(next, txs[1..], c);
      if c in Run(clients, txs).clients && c !in clients && c != txs[0].client {
        var i :| 0 <= i < |txs[1..]| && txs[1..][i].client == c;
        assert txs[i + 1].client == c;
      }
      if c in clients && (forall i :: 0 <= i < |txs| ==> txs[i].client != c) {
        forall i | 0 <= i < |txs[1..]| ensures txs[1..][i].client != c {
          assert txs[1..][i] == txs[i + 1];
        }
      }
    }
  }

  /** Updating one client's ledger twice keeps only the second update. */
  lemma UpdateTwice(clients: Clients, k: ClientId, first: LedgerState, second: LedgerState)
    ensures clients[k := first][k := second] == clients[k := second]
  {
  }

  // ---------------------------------------------------------------------------
  // Worked examples, with amounts in ten-thousandths (10000 is one unit).

  function Rec(ty: TransactionType, client: U16, tx: U32, amount: Amount): (t: Transaction) {
    Transaction(ty, ClientId(client), TransactionId(tx), amount)
  }

  /** A deposit, a partial withdrawal, then a dispute of the withdrawal: the
      dispute moves the negative withdrawn amount into held. */
  lemma DisputedWithdrawalHoldsNegative()
    ensures
      var o := Run(map[], [Rec(Deposit, 1, 1, 10000), Rec(Withdrawal, 1, 2, 5000), Rec(Dispute, 1, 2, 0)]);
      && o.result == Ok(())
      && ClientId(1) in o.clients
      && o.clients[ClientId(1)].available == 10000
      && o.clients[ClientId(1)].held == -5000
      && o.clients[ClientId(1)].total == 5000
  {
    var k, d, w := ClientId(1), TransactionId(1), TransactionId(2);
    var txs := [Rec(Deposit, 1, 1, 10000), Rec(Withdrawal, 1, 2, 5000), Rec(Dispute, 1, 2, 0)];
    var s1 := LedgerState(10000, 0, 10000, false, map[d := 10000], {}, {});
    var s2 := s1.(available := 5000, total := 5000, transactions := s1.transactions[w := -5000]);
    var s3 := s2.(available := 10000, held := -5000, inDispute := {w});
    assert s2.inDispute + {w} == {w};
    assert Step(map[], txs[0]) == Ok(map[k := s1]);
    UpdateTwice(map[], k, s1, s2);
    assert Step(map[k := s1], txs[1]) == Ok(map[k := s2]);
    UpdateTwice(map[], k, s2, s3);
    assert Step(map[k := s2], txs[2]) == Ok(map[k := s3]);
    RunFirstOk(map[], txs, map[k := s1]);
    RunFirstOk(map[k := s1], txs[1..], map[k := s2]);
    RunFirstOk(map[k := s2], txs[2..], map[k := s3]);
    assert txs[2..][1..] == [];
  }

  /** A deposit charged back empties and locks the account; a later deposit
      stops the run with `AccountLocked`. */
  lemma ChargebackThenDepositFails()
    ensures
      var o := Run(map[], [Rec(Deposit, 1, 1, 10000), Rec(Dispute, 1, 1, 0), Rec(Chargeback, 1, 1, 0), Rec(Deposit, 1, 2, 50000)]);
      && o.result == Err(AccountLocked)
      && ClientId(1) in o.clients
      && o.clients[ClientId(1)].available == 0
      && o.clients[ClientId(1)].held == 0
      && o.clients[ClientId(1)].total == 0
      && o.clients[ClientId(1)].locked
  {
    var k, t := ClientId(1), TransactionId(1);
    var txs := [Rec(Deposit, 1, 1, 10000), Rec(Dispute, 1, 1, 0), Rec(Chargeback, 1, 1, 0), Rec(Deposit, 1, 2, 50000)];
    var s1 := LedgerState(10000, 0, 10000, false, map[t := 10000], {}, {});
    var s2 := s1.(available := 0, held := 10000, inDispute := {t});
    var s3 := s2.(held := 0, total := 0, locked := true, inDispute := {}, disputed := {t});
    assert s1.inDispute + {t} == {t} && {t} - {t} == {} && s2.disputed + {t} == {t};
    assert Step(map[], txs[0]) == Ok(map[k := s1]);
    UpdateTwice(map[], k, s1, s2);
    assert Step(map[k := s1], txs[1]) == Ok(map[k := s2]);
    UpdateTwice(map[], k, s2, s3);
    assert Step(map[k := s2], txs[2]) == Ok(map[k := s3]);
    assert Step(map[k := s3], txs[3]) == Err(AccountLocked);
    RunFirstOk(map[], txs, map[k := s1]);
    RunFirstOk(map[k := s1], txs[1..], map[k := s2]);
    RunFirstOk(map[k := s2], txs[2..], map[k := s3]);
    assert txs[3..][0] == txs[3];
  }

  /** A withdrawal by a client with no deposit stops the run with `UnknownClient`. */
  lemma WithdrawalByUnknownClientFails()
    ensures Run(map[], [Rec(Withdrawal, 99, 1, 10000)]) == RunOutcome(Err(UnknownClient), map[])
  {
  }
}
