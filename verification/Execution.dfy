// The execution manager over its checkpointer: a placement, a fill report, a settled boundary and a
// restart, each the step of the machine in `Recovery` it is proved to be.

module Execution {
  import opened Domain
  import opened Positions
  import opened Ledger
  import opened Sagas
  import opened Recovery
  import opened Projection

  // What one fill report comes to: nothing, a fault, or the engine it leaves once its write lands.
  datatype Fate = Absorbed | Faults | Books(next: Engine)

  ghost function FateOf(c: Config, e: Engine, cloid: string, trade: string, quantity: int, price: real, fee: real): Fate
    requires c.step > 0.0 && e.memory.Some?
  {
    var m := e.memory.value;
    if cloid !in m.orders || cloid !in c.terms then Absorbed else
      match Recorded(m.orders[cloid], trade, quantity)
      case Duplicate => Absorbed
      case Illegal => Faults
      case Advanced(order) =>
        match FillsOf(c, cloid, order.cum, quantity, price, fee)
        case None => Faults
        case Some(fills) => Books(Landed(c, e, order, fills, FillBooked(cloid, trade, quantity, price, fee)))
  }

  // The engine once the fills of a trade are folded and their write landed.
  ghost function Landed(c: Config, e: Engine, order: Saga, fills: seq<Fill>, b: Booking): Engine
    requires e.memory.Some? && b.FillBooked? && b.cloid in c.terms
  {
    var m := e.memory.value;
    var book := TakeAll(m.book, OriginOf(c, b.cloid, b.trade), fills);
    Engine(
      Durable(e.durable.orders[b.cloid := order], WriteRows(e.durable.ledger, book.ledger, KeysOf(fills)),
        e.durable.marks),
      Some(Memory(m.orders[b.cloid := order], book, None)), e.log + [b])
  }

  /** It is the machine's own fold followed by its write. */
  lemma FateIsTheMachines(c: Config, e: Engine, cloid: string, trade: string, quantity: int, price: real, fee: real)
    requires c.step > 0.0 && e.memory.Some? && e.memory.value.pending.None?
    ensures var folded := FoldFill(c, e, cloid, trade, quantity, price, fee);
      match FateOf(c, e, cloid, trade, quantity, price, fee)
      case Absorbed => folded == e
      case Faults => folded == e.(memory := None)
      case Books(next) => Next(c, folded, Written) == next
  {
    hide FillsOf, TakeAll, WriteRows, KeysOf, Legal;
  }

  // What one settled boundary comes to.
  ghost function FundingFate(c: Config, e: Engine, s: Symbol, boundary: int, amount: real): Fate
    requires e.memory.Some?
  {
    var m := e.memory.value;
    if Gated(c, e.durable.marks, s, boundary) then Absorbed else
      var ledger := BookFunding(m.book.ledger, s, amount);
      Books(Engine(
        Durable(e.durable.orders, WriteRows(e.durable.ledger, ledger, ExposedKeys(m.book.ledger.positions, s)),
                e.durable.marks[s := boundary]),
        Some(Memory(m.orders, m.book.(ledger := ledger), None)), e.log + [FundingBooked(s, boundary, amount)]))
  }

  /** And so is a boundary: the machine's fold, then its write with the watermark beside it. */
  lemma FundingFateIsTheMachines(c: Config, e: Engine, s: Symbol, boundary: int, amount: real)
    requires c.step > 0.0 && e.memory.Some? && e.memory.value.pending.None?
    ensures var folded := Next(c, e, FundingFolded(s, boundary, amount));
      match FundingFate(c, e, s, boundary, amount)
      case Absorbed => folded == e
      case Faults => false
      case Books(next) => Next(c, folded, Written) == next
  {
    hide BookFunding, WriteRows, ExposedKeys;
  }

  lemma StepPositive(c: Config)
    requires Good(c)
    ensures c.step > 0.0
  {}

  lemma RecoveredReads(c: Config, e: Engine)
    requires c.step > 0.0 && e.memory.None?
    ensures Next(c, e, Recovered) == e.(memory := Some(Memory(e.durable.orders, Unseen(e.durable.ledger), None)))
  {
    hide Unseen;
  }

  lemma PlacedReads(c: Config, e: Engine, cloid: string, denied: bool)
    requires c.step > 0.0 && e.memory.Some? && e.memory.value.pending.None? && cloid in c.terms
    ensures var m := e.memory.value; var order := Start(c.terms[cloid].quantity, denied || Turns(c.terms[cloid]));
      Next(c, e, Placed(cloid, denied)) == if cloid in m.orders then e else
        e.(durable := e.durable.(orders := e.durable.orders[cloid := order]),
           memory := Some(m.(orders := m.orders[cloid := order])))
  {
    hide Turns;
  }

  // A fill an order takes is of one no split turned away.
  lemma TakenWasLetThrough(c: Config, orders: map<string, Saga>, cloid: string, trade: string, quantity: int)
    requires AllPlaced(c, orders) && cloid in orders
    ensures cloid in c.terms
    ensures Recorded(orders[cloid], trade, quantity).Advanced? ==>
      !Turns(c.terms[cloid]) && 0 < quantity <= Recorded(orders[cloid], trade, quantity).value.cum
  {
    hide Turns;
  }

  // What a placement writes.
  function NewRow(quantity: int, seqNo: int, turned: bool, reason: string): OrderRow {
    OrderRow(Start(quantity, turned), seqNo, Venue(None, None, if turned then Some(reason) else None),
             Cancel(false, None, None))
  }

  // Every order a restart reads back, one from each row.
  method RestoredOrders(rows: map<string, OrderRow>) returns (orders: map<string, Order>)
    ensures orders.Keys == rows.Keys
    ensures forall cloid :: cloid in orders ==>
      fresh(orders[cloid]) && orders[cloid].cloid == cloid && orders[cloid].Row() == rows[cloid]
  {
    orders := map[];
    var left := rows.Keys;
    while left != {}
      invariant left <= rows.Keys && orders.Keys == rows.Keys - left
      invariant forall cloid :: cloid in orders ==>
        fresh(orders[cloid]) && orders[cloid].cloid == cloid && orders[cloid].Row() == rows[cloid]
      decreases |left|
    {
      var cloid :| cloid in left;
      var order := new Order.Restored(cloid, rows[cloid]);
      orders := orders[cloid := order];
      left := left - {cloid};
    }
  }

  // A placement's order: written ahead of the send, or turned away.
  method OrderFor(cloid: string, seqNo: int, quantity: int, turned: bool, reason: string, ts: int)
    returns (order: Order)
    ensures fresh(order) && order.cloid == cloid
    ensures order.Row() == NewRow(quantity, seqNo, turned, reason) && order.View() == Start(quantity, turned)
    ensures order.state == (if turned then Denied else Pending) && order.quantity == quantity && order.seqNo == seqNo
    ensures order.venue.reason == if turned then Some(reason) else None
  {
    order := new Order(cloid, seqNo, quantity);
    if turned {
      DenialIsAStep(quantity);
      var _ := order.Apply(OrderEvent(StatusKey(Denied), Denied, None, None, ts, Some(reason)));
    }
  }

  datatype Handled = Ignored | Booked | Faulted

  class ExecutionManager {
    const checkpointer: Checkpointer
    const config: Config
    var orders: map<string, Order>

    constructor (checkpointer: Checkpointer, config: Config)
      ensures this.checkpointer == checkpointer && this.config == config && orders == map[]
    {
      this.checkpointer, this.config := checkpointer, config;
      orders := map[];
    }

    ghost predicate Valid()
      reads this, orders.Values, checkpointer, checkpointer.portfolio, checkpointer.portfolio.positions.Values
    {
      checkpointer.Valid() && forall cloid :: cloid in orders ==> orders[cloid].cloid == cloid
    }

    ghost function Orders(): map<string, Saga>
      reads this, orders.Values
    {
      map cloid | cloid in orders :: orders[cloid].View()
    }

    // The engine, with nothing left to write, is in the machine's state.
    ghost predicate Holding(e: Engine)
      reads this, orders.Values, checkpointer, checkpointer.store
      reads checkpointer.portfolio, checkpointer.portfolio.positions.Values
    {
      && Valid() && checkpointer.store.View() == e.durable
      && e.memory == Some(Memory(Orders(), checkpointer.portfolio.View(), None))
    }

    function Target(cloid: string): set<Order>
      reads this
    {
      if cloid in orders then {orders[cloid]} else {}
    }

    /** A restart is the machine's recovery: whatever a crash left in the store, the ledger comes back
        from its rows and every order from its own, venue terms and cancel marker included. */
    method Restart(ghost e: Engine)
      requires e.memory.None? && checkpointer.store.View() == e.durable && config.step > 0.0
      modifies this`orders, checkpointer.portfolio
      ensures Holding(Next(config, e, Recovered))
      ensures orders.Keys == checkpointer.store.orders.Keys
      ensures forall cloid :: cloid in orders ==>
        fresh(orders[cloid]) && orders[cloid].Row() == checkpointer.store.orders[cloid]
    {
      hide Unseen, Next, PortfolioProjection.View, PortfolioProjection.Contents, PortfolioProjection.Valid, Order.Row;
      RecoveredReads(config, e);
      var restored := RestoredOrders(checkpointer.store.orders);
      checkpointer.Recover();
      orders := restored;
      SagasRestored();
    }

    /** A placement: the order's row is durable, pending or denied, before anything is sent. An order
        already known is left alone. `denied` is the guard's answer. */
    method Place(cloid: string, seqNo: int, denied: bool, reason: string, ts: int, ghost e: Engine)
      requires Holding(e) && cloid in config.terms && config.step > 0.0
      modifies this`orders, checkpointer.store`orders
      ensures Holding(Next(config, e, Placed(cloid, denied)))
      ensures cloid in orders
      ensures cloid !in old(orders) ==>
        && fresh(orders[cloid])
        && orders[cloid].state == (if denied || Turns(config.terms[cloid]) then Denied else Pending)
        && orders[cloid].venue.reason == (if orders[cloid].state == Denied then Some(reason) else None)
        && orders[cloid].seqNo == seqNo && orders[cloid].quantity == config.terms[cloid].quantity
        && orders[cloid].Row()
          == NewRow(config.terms[cloid].quantity, seqNo, denied || Turns(config.terms[cloid]), reason)
        && checkpointer.store.orders == old(checkpointer.store.orders)[cloid := orders[cloid].Row()]
      ensures cloid in old(orders) ==>
        orders == old(orders) && checkpointer.store.orders == old(checkpointer.store.orders)
    {
      hide Turns, Next, Start, NewRow, PortfolioProjection.View, PortfolioProjection.Contents, Order.View, Order.Row;
      PlacedReads(config, e, cloid, denied);
      if cloid in orders {
        return;
      }
      ghost var before, book := Orders(), checkpointer.portfolio.View();
      var t := config.terms[cloid];
      var order := OrderFor(cloid, seqNo, t.quantity, denied || Turns(t), reason, ts);
      checkpointer.Checkpoint(order);
      orders := orders[cloid := order];
      assert Orders() == before[cloid := order.View()];
      assert checkpointer.portfolio.View() == book;
    }

    /** One fill report, start to end, is the engine its fate names; a redelivery is ignored, and a
        fault leaves the store alone. `e` is the state of `Recovery` the engine is in; every state a run
        reaches has its orders placed (`EveryRunSound`). */
    method ApplyFill(cloid: string, trade: string, quantity: int, price: real, fee: real, ts: int, accepts: bool,
                     ghost e: Engine) returns (r: Handled)
      requires Holding(e) && Good(config) && AllPlaced(config, e.memory.value.orders)
      modifies Target(cloid), checkpointer.store, checkpointer.portfolio, checkpointer.portfolio.positions.Values
      ensures var fate := FateOf(config, e, cloid, trade, quantity, price, fee);
        && (r.Ignored? <==> fate.Absorbed?)
        && (r.Booked? <==> fate.Books? && accepts)
        && (r.Booked? ==> Holding(fate.next))
      ensures r.Ignored? ==> Holding(e)
      ensures r.Booked? ==>
        cloid in orders && checkpointer.store.orders == old(checkpointer.store.orders)[cloid := orders[cloid].Row()]
      ensures !r.Booked? ==>
        checkpointer.store.View() == e.durable && checkpointer.store.orders == old(checkpointer.store.orders)
    {
      hide FillsOf, Recorded, Good, Landed, Turns, AllPlaced;
      hide PortfolioProjection.View, PortfolioProjection.Contents, PortfolioProjection.Valid;
      StepPositive(config);
      if cloid !in orders {
        return Ignored;
      }
      ghost var before := Orders();
      TakenWasLetThrough(config, before, cloid, trade, quantity);
      var recorded := orders[cloid].RecordFill(trade, quantity, ts);
      OneOrderMoved(before, cloid);
      if recorded.Illegal? {
        return Faulted;
      }
      if recorded.Duplicate? {
        return Ignored;
      }
      r := BookRecorded(cloid, trade, quantity, price, fee, accepts, e);
    }

    // A fill the saga just took, into the ledger.
    method BookRecorded(cloid: string, trade: string, quantity: nat, price: real, fee: real, accepts: bool,
                        ghost e: Engine) returns (r: Handled)
      requires Valid() && Good(config) && cloid in orders && cloid in config.terms && !Turns(config.terms[cloid])
      requires 0 < quantity <= orders[cloid].cum && config.step > 0.0
      requires e.memory.Some? && checkpointer.store.View() == e.durable
      requires checkpointer.portfolio.View() == e.memory.value.book
      requires Orders() == e.memory.value.orders[cloid := orders[cloid].View()]
      modifies checkpointer.store, checkpointer.portfolio, checkpointer.portfolio.positions.Values
      ensures var fills := FillsOf(config, cloid, old(orders[cloid].cum), quantity, price, fee);
        && !r.Ignored?
        && (r.Booked? <==> fills.Some? && accepts)
        && (r.Booked? ==>
              var b := FillBooked(cloid, trade, quantity, price, fee);
              Holding(Landed(config, e, old(orders[cloid].View()), fills.value, b)))
      ensures r.Booked? ==>
        checkpointer.store.orders == old(checkpointer.store.orders)[cloid := orders[cloid].Row()]
      ensures !r.Booked? ==>
        checkpointer.store.View() == e.durable && checkpointer.store.orders == old(checkpointer.store.orders)
    {
      hide FillsOf, TakeAll, WriteRows, Good, KeysOf;
      var fills := FillsOf(config, cloid, orders[cloid].cum, quantity, price, fee);
      if fills.None? {
        return Faulted;
      }
      FillsTrade(config, cloid, orders[cloid].cum, quantity, price, fee);
      var ok := checkpointer.CheckpointFill(orders[cloid], OriginOf(config, cloid, trade), fills.value, accepts);
      return if ok then Booked else Faulted;
    }

    /** One settled boundary, start to end: gated and nothing moves, or booked with its watermark, or
        refused and the store is as it was. */
    method AccrueFunding(s: Symbol, boundary: int, amount: real, accepts: bool, ghost e: Engine) returns (r: Handled)
      requires Holding(e)
      modifies checkpointer.store, checkpointer.portfolio, checkpointer.portfolio.positions.Values
      ensures var fate := FundingFate(config, e, s, boundary, amount);
        && (r.Ignored? <==> fate.Absorbed?)
        && (r.Booked? <==> fate.Books? && accepts)
        && (r.Booked? ==> Holding(fate.next))
      ensures r.Ignored? ==> Holding(e)
      ensures !r.Booked? ==> checkpointer.store.View() == e.durable
    {
      hide BookFunding, WriteRows, ExposedKeys;
      var gated := Gated(config, checkpointer.store.marks, s, boundary);
      var booked := checkpointer.CheckpointFunding(s, boundary, amount, config.genesisTs, accepts);
      return if booked then Booked else if gated then Ignored else Faulted;
    }

    lemma SagasRestored()
      requires orders.Keys == checkpointer.store.orders.Keys
      requires forall cloid :: cloid in orders ==> orders[cloid].Row() == checkpointer.store.orders[cloid]
      ensures Orders() == checkpointer.store.View().orders
    {}

    lemma OneOrderMoved(before: map<string, Saga>, cloid: string)
      requires cloid in orders && before.Keys == orders.Keys
      requires forall k :: k in orders && k != cloid ==> before[k] == orders[k].View()
      ensures Orders() == before[cloid := orders[cloid].View()]
    {}
  }
}
