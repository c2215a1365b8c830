/** The engine: the map from client ids to ledger objects, and the loop that
    routes each record of the input to its client's ledger, stopping at the
    first failure. Its ghost field `ledgers` holds the ledgers as values, and
    its contracts tie it to the functions of module `Routing`. */
module Engine {
  import opened Errors
  import opened Transactions
  import Ledger
  import Routing
  import opened Client

  class Engine {
    var clients: map<ClientId, ClientData>
    /** The client that owns each ledger object of this engine. */
    ghost var owner: map<ClientData, ClientId>
    /** The ledgers as values, by client. */
    ghost var ledgers: Routing.Clients

    /** Every ledger is owned here, distinct clients own distinct ledger objects,
        every ledger is consistent, and `ledgers` holds each one's current state. */
    ghost predicate Valid()
      reads this, owner.Keys
    {
      && clients.Keys == ledgers.Keys
      && (forall c :: c in clients ==> clients[c] in owner && owner[clients[c]] == c)
      && (forall c {:trigger clients[c].Valid()} :: c in clients ==> clients[c].Valid())
      && (forall c :: c in clients ==> clients[c].State() == ledgers[c])
    }

    /** Every ledger of a valid engine knows the ids it has under dispute or reversed. */
    lemma LedgersDisputesKnown()
      requires Valid()
      ensures Routing.AllDisputesKnown(ledgers)
    {
      forall c | c in ledgers ensures Ledger.DisputesKnown(ledgers[c]) {
        assert clients[c].Valid();
      }
    }

    /** A new engine, as `Engine::default()`: no clients, and no ledger objects. */
    constructor ()
      ensures Valid() && ledgers == map[] && owner == map[]
    {
      clients := map[];
      owner := map[];
      ledgers := map[];
    }

    /** Finds the ledger a record goes to: for a deposit the client's ledger,
        created empty if the client is new; for any other record the client's
        existing ledger, or `UnknownClient`. */
    method LedgerFor(tx: Transaction) returns (found: Result<ClientData>)
      requires Valid()
      modifies this
      ensures Valid() && old(owner.Keys) <= owner.Keys && fresh(owner.Keys - old(owner.Keys))
      ensures found.Err? <==> tx.ty != Deposit && tx.client !in old(clients)
      ensures found.Err? ==> found.error == UnknownClient && ledgers == old(ledgers)
      ensures found.Ok? ==> tx.client in clients && clients[tx.client] == found.value
      ensures found.Ok? ==> ledgers == old(ledgers)[tx.client := Routing.Target(old(ledgers), tx.client)]
    {
      if tx.client in clients {
        return Ok(clients[tx.client]);
      }
      if tx.ty != Deposit {
        return Err(UnknownClient);
      }
      var client := new ClientData();
      AddClient(tx.client, client);
      return Ok(client);
    }

    /** Hands the new client `k` the ledger object `client`, which no client
        owns yet. */
    method AddClient(k: ClientId, client: ClientData)
      requires Valid() && k !in clients && client !in owner && client.Valid()
      modifies this
      ensures Valid() && owner == old(owner)[client := k]
      ensures clients == old(clients)[k := client]
      ensures ledgers == old(ledgers)[k := client.State()]
    {
      ghost var clients0 := clients;
      clients, owner, ledgers := clients[k := client], owner[client := k], ledgers[k := client.State()];
      forall c | c in clients
        ensures clients[c] in owner && owner[clients[c]] == c
      {
        if c != k {
          assert clients[c] == clients0[c] != client;
        }
      }
      forall c | c in clients
        ensures clients[c].Valid() && clients[c].State() == ledgers[c]
      {
        if c != k {
          assert old(clients[c].Valid());
        }
      }
    }

    /** Runs the record's operation on the ledger of client `k`; the other
        ledgers are untouched. */
    method ApplyTo(k: ClientId, tx: Transaction) returns (r: Result<()>)
      requires Valid() && k in clients && Routing.AllDisputesKnown(ledgers)
      modifies this, clients[k]
      ensures Valid() && clients == old(clients) && owner == old(owner)
      ensures k in ledgers && ledgers == old(ledgers)[k := ledgers[k]]
      ensures Ledger.Performs(Routing.Dispatch(old(ledgers[k]), tx.ty, tx.tx, tx.amount), old(ledgers[k]), r, ledgers[k])
    {
      var client := clients[k];
      assert client.Valid();
      r := Call(client, tx);
      ledgers := ledgers[k := client.State()];
      forall c | c in clients && c != k
        ensures clients[c].Valid() && clients[c].State() == ledgers[c]
      {
        assert clients[c] != client;
        assert old(clients[c].Valid());
      }
    }

    /** The body of the loop of `apply_transactions` in chain_tx's Rust code,
        for one record. */
    method Apply(tx: Transaction) returns (r: Result<()>)
      requires Valid()
      modifies this, owner.Keys
      ensures Valid() && old(owner.Keys) <= owner.Keys && fresh(owner.Keys - old(owner.Keys))
      ensures Routing.AllDisputesKnown(old(ledgers))
      ensures match Routing.Step(old(ledgers), tx)
              case Ok(next) => r == Ok(()) && ledgers == next
              case Err(e) => r == Err(e) && ledgers == old(ledgers)
    {
      LedgersDisputesKnown();
      if tx.amount < 0 {
        return Err(NegativeAmount);
      }
      ghost var before := ledgers;
      var found := LedgerFor(tx);
      if found.Err? {
        return Err(found.error);
      }
      ghost var mid := ledgers;
      LedgersDisputesKnown();
      r := ApplyTo(tx.client, tx);
      Routing.StepThroughTarget(before, tx, mid, r, ledgers);
    }

    /** The loop of `apply_transactions` over an input, with the reader replaced
        by a sequence of records: they are applied in order, and the first
        failure is returned with the effects of every earlier record kept. When
        every ledger starts valid, every ledger ends valid. */
    method ApplyTransactions(txs: seq<Transaction>) returns (r: Result<()>)
      requires Valid()
      modifies this, owner.Keys
      ensures Valid() && old(owner.Keys) <= owner.Keys && fresh(owner.Keys - old(owner.Keys))
      ensures Routing.AllDisputesKnown(old(ledgers))
      ensures Routing.Run(old(ledgers), txs) == Routing.RunOutcome(r, ledgers)
      ensures Routing.AllValid(old(ledgers)) ==> Routing.AllValid(ledgers)
    {
      LedgersDisputesKnown();
      var i := 0;
      while i < |txs|
        invariant 0 <= i <= |txs|
        invariant Valid() && old(owner.Keys) <= owner.Keys && fresh(owner.Keys - old(owner.Keys))
        invariant Routing.AllDisputesKnown(ledgers)
        invariant Routing.Run(old(ledgers), txs) == Routing.Run(ledgers, txs[i..])
      {
        var res := Apply(txs[i]);
        assert txs[i..][0] == txs[i] && txs[i..][1..] == txs[i + 1..];
        if res.Err? {
          Routing.RunOutcomeValid(old(ledgers), txs, Routing.RunOutcome(res, ledgers));
          return res;
        }
        i := i + 1;
      }
      Routing.RunOutcomeValid(old(ledgers), txs, Routing.RunOutcome(Ok(()), ledgers));
      return Ok(());
    }
  }

  /** A fresh engine fed a whole input, as `main` does: the outcome and the
      ledgers are those of `Routing.Run` from no clients at all. */
  method Replay(txs: seq<Transaction>) returns (engine: Engine, r: Result<()>)
    ensures fresh(engine) && engine.Valid()
    ensures Routing.Run(map[], txs) == Routing.RunOutcome(r, engine.ledgers)
    ensures Routing.AllValid(engine.ledgers)
  {
    engine := new Engine();
    r := engine.ApplyTransactions(txs);
  }

  /** Runs the ledger operation a record's type names on the given ledger. */
  method Call(client: ClientData, tx: Transaction) returns (r: Result<()>)
    requires client.Valid()
    modifies client
    ensures client.Valid()
    ensures Ledger.Performs(Routing.Dispatch(old(client.State()), tx.ty, tx.tx, tx.amount), old(client.State()), r, client.State())
  {
    match tx.ty
    case Deposit => r := client.Deposit(tx.tx, tx.amount);
    case Withdrawal => r := client.Withdraw(tx.tx, tx.amount);
    case Dispute => r := client.Dispute(tx.tx);
    case Resolve => r := client.Resolve(tx.tx);
    case Chargeback => r := client.Chargeback(tx.tx);
  }
}
