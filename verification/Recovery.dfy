// Exactly-once booking across crashes.
//
// A fill moves an order's saga and the ledger. Delivery is at least once, the saga's dedup set is
// durable and a position's is not, so what keeps a fill from being lost or booked twice is the one
// transaction that writes the order row beside the ledger rows. Between two steps below nothing
// else runs; a crash may fall between any two and keeps only the store. A faulted run is a crash.

module Recovery {
  import opened Domain
  import opened Positions
  import opened Ledger
  import opened Sagas
  import B = FlattenBooking
  import F = FlattenSplit
  import L = Leftover

  // ----- The projection: a ledger beside the dedup sets its positions hold in memory -----

  datatype Book = Book(ledger: Ledger, seen: map<Key, set<EventId>>)

  function SeenAt(b: Book, key: Key): set<EventId> {
    if key in b.seen then b.seen[key] else {}
  }

  function Take(b: Book, id: EventId, f: Fill): Book {
    if id in SeenAt(b, f.key) then b
    else Book(BookFill(b.ledger, f), b.seen[f.key := SeenAt(b, f.key) + {id}])
  }

  // A ledger read back from the store: no dedup set survived.
  function Unseen(l: Ledger): Book {
    Book(l, map k | k in l.positions :: {})
  }

  // What a group of fills booked together dedups on.
  datatype Origin =
    | OfFill(cloid: string, trade: string)
    | OfSplit(cloid: string, trade: string)
    | OfLeftover(symbol: Symbol, ts: int)
    | OfHeal(ts: int)

  function IdOf(o: Origin, key: Key): EventId {
    match o
    case OfFill(cloid, trade) => FillId(cloid, trade)
    case OfSplit(cloid, trade) => PieceId(cloid, trade, key.owner)
    case OfLeftover(s, ts) => LeftoverId(s, ts, key.owner)
    case OfHeal(ts) => ReconcileId(key.symbol, ts)
  }

  function TakeAll(b: Book, o: Origin, fills: seq<Fill>): Book
    decreases fills
  {
    if fills == [] then b else TakeAll(Take(b, IdOf(o, fills[0].key), fills[0]), o, fills[1..])
  }

  // One reconcile cycle's size fills, and behind them the cash line set to the venue's net cash.
  ghost function HealedBook(b: Book, o: Origin, fills: seq<Fill>, netCash: Option<real>): Book {
    var taken := TakeAll(b, o, fills);
    if netCash.Some? then taken.(ledger := Corrected(taken.ledger, netCash.value)) else taken
  }

  // A cycle's size fills: one for each unattributed partition, by a real gap.
  predicate HealsSizes(fills: seq<Fill>) {
    DistinctKeys(fills) && forall i :: 0 <= i < |fills| ==> fills[i].key.owner.Unattributed? && fills[i].signed != 0.0
  }

  predicate DistinctKeys(fills: seq<Fill>) {
    forall i, j :: 0 <= i < j < |fills| ==> fills[i].key != fills[j].key
  }

  function KeysOf(fills: seq<Fill>): set<Key> {
    set i | 0 <= i < |fills| :: fills[i].key
  }

  lemma {:induction false} TakeAllBooks(b: Book, o: Origin, fills: seq<Fill>)
    requires DistinctKeys(fills)
    requires forall i :: 0 <= i < |fills| ==> IdOf(o, fills[i].key) !in SeenAt(b, fills[i].key)
    ensures TakeAll(b, o, fills).ledger == BookAll(b.ledger, fills)
    ensures forall key, id :: id in SeenAt(TakeAll(b, o, fills), key) ==> id in SeenAt(b, key) || id == IdOf(o, key)
    decreases fills
  {
    hide BookFill;
    if fills != [] {
      var next := Take(b, IdOf(o, fills[0].key), fills[0]);
      forall i | 0 <= i < |fills[1..]| ensures IdOf(o, fills[1..][i].key) !in SeenAt(next, fills[1..][i].key) {
        assert fills[1..][i] == fills[i + 1];
      }
      TakeAllBooks(next, o, fills[1..]);
    }
  }

  lemma KeysFirst(fills: seq<Fill>)
    requires fills != []
    ensures KeysOf(fills) == {fills[0].key} + KeysOf(fills[1..])
  {
    assert forall i :: 0 < i < |fills| ==> fills[i] == fills[1..][i - 1];
    assert forall i :: 0 <= i < |fills| - 1 ==> fills[1..][i] == fills[i + 1];
  }

  // Booking touches only the fills' own partitions, and never drops one.
  predicate AgreeOff(d: map<Key, Pos>, m: map<Key, Pos>, rows: set<Key>) {
    d.Keys <= m.Keys && m.Keys <= d.Keys + rows && forall k :: k in d && k !in rows ==> m[k] == d[k]
  }

  lemma {:induction false} BookAllRows(l: Ledger, fills: seq<Fill>)
    ensures AgreeOff(l.positions, BookAll(l, fills).positions, KeysOf(fills))
    decreases fills
  {
    hide BookPos, KeysOf;
    if fills != [] {
      BookAllRows(BookFill(l, fills[0]), fills[1..]);
      KeysFirst(fills);
    }
  }

  // Fills of distinct partitions each book into their own, whatever the others do.
  lemma {:induction false} BookAllEach(l: Ledger, fills: seq<Fill>)
    requires DistinctKeys(fills)
    ensures forall i :: 0 <= i < |fills| ==>
      var f := fills[i]; var p := At(l, f.key);
      At(BookAll(l, fills), f.key) == BookPos(p.(fees := p.fees + f.fee), f.signed, f.price)
    ensures forall key :: key !in KeysOf(fills) ==> At(BookAll(l, fills), key) == At(l, key)
    decreases fills
  {
    hide BookPos, KeysOf;
    if fills != [] {
      var next, rest := BookFill(l, fills[0]), fills[1..];
      BookAllEach(next, rest);
      KeysFirst(fills);
      FirstApart(fills);
      forall i | 0 <= i < |fills|
        ensures var f := fills[i]; var p := At(l, f.key);
          At(BookAll(l, fills), f.key) == BookPos(p.(fees := p.fees + f.fee), f.signed, f.price)
      {
        if i > 0 {
          assert rest[i - 1] == fills[i];
        }
      }
    }
  }

  lemma FirstApart(fills: seq<Fill>)
    requires DistinctKeys(fills) && fills != []
    ensures fills[0].key !in KeysOf(fills[1..])
  {}

  // ----- Orders and what their fills book -----

  datatype Terms = Terms(owner: Owner, symbol: Symbol, side: Side, quantity: nat, basis: Option<F.Basis>)

  datatype Config = Config(genesis: Ledger, genesisTs: int, terms: map<string, Terms>, lot: Symbol -> real, step: real)

  ghost predicate Good(c: Config) {
    && c.step > 0.0 && (forall s :: c.lot(s) > 0.0)
    && forall cloid :: cloid in c.terms && c.terms[cloid].basis.Some? ==> F.DistinctOwners(c.terms[cloid].basis.value)
  }

  // A flatten order the split could not book is denied at place, whatever the guard said.
  predicate Turns(t: Terms) {
    t.basis.Some? && F.SplitRefusal(t.basis.value, t.side, t.quantity).Some?
  }

  // Turned away are the flatten orders that would not take their basis's net toward zero, or past it.
  lemma TurnsIff(t: Terms)
    requires t.quantity > 0
    ensures var net := if t.basis.Some? then F.Net(t.basis.value) else 0;
      Turns(t) <==> t.basis.Some? && !(if t.side.Sell? then t.quantity <= net else t.quantity <= -net)
  {
    hide F.Net;
  }

  // The ledger fills of one trade that brings the order to `cum`; `None` where the split refuses.
  function FillsOf(c: Config, cloid: string, cum: nat, quantity: nat, price: real, fee: real): Option<seq<Fill>>
    requires cloid in c.terms && quantity <= cum && c.step > 0.0
  {
    var t := c.terms[cloid];
    match t.basis
    case None =>
      Some([Fill.Fill(Key(t.owner, t.symbol), SignedQuantity(B.Coins(quantity, c.lot(t.symbol)), t.side), price, fee)])
    case Some(basis) =>
      match F.Split(basis, cum, quantity, fee, c.step)
      case Ok(moves) => Some(B.Pieces(t.symbol, moves, c.lot(t.symbol), price))
      case Err(_) => None
  }

  function OriginOf(c: Config, cloid: string, trade: string): Origin
    requires cloid in c.terms
  {
    if c.terms[cloid].basis.None? then OfFill(cloid, trade) else OfSplit(cloid, trade)
  }

  lemma {:induction false} MovedDistinct(basis: F.Basis, sizes: seq<int>)
    requires |basis| == |sizes| && F.DistinctOwners(basis)
    ensures F.DistinctOwners(F.Moved(basis, sizes))
    ensures forall k :: 0 <= k < |F.Moved(basis, sizes)| ==>
              exists i :: 0 <= i < |basis| && basis[i].owner == F.Moved(basis, sizes)[k].owner
  {
    if basis != [] {
      var rest := F.Moved(basis[1..], sizes[1..]);
      MovedDistinct(basis[1..], sizes[1..]);
      forall k | 0 <= k < |F.Moved(basis, sizes)|
        ensures exists i :: 0 <= i < |basis| && basis[i].owner == F.Moved(basis, sizes)[k].owner
      {
        var j := if sizes[0] == 0 then k else k - 1;
        if j < 0 {
          assert basis[0].owner == F.Moved(basis, sizes)[k].owner;
        } else {
          var i :| 0 <= i < |basis[1..]| && basis[1..][i].owner == rest[j].owner;
          assert basis[i + 1].owner == F.Moved(basis, sizes)[k].owner;
        }
      }
    }
  }

  lemma {:induction false} PiecesKeys(s: Symbol, moves: seq<F.Move>, lot: real, price: real)
    ensures forall k :: 0 <= k < |moves| ==>
      B.Pieces(s, moves, lot, price)[k]
        == Fill.Fill(Key(moves[k].owner, s), B.Coins(moves[k].size, lot), price, moves[k].fee)
  {
    if moves != [] {
      PiecesKeys(s, moves[1..], lot, price);
    }
  }

  lemma SplitNever(basis: F.Basis, cum: nat, quantity: nat, fee: real, step: real)
    requires step > 0.0 && F.DistinctOwners(basis) && 0 < quantity <= cum
    ensures F.Split(basis, cum, quantity, fee, step).Ok? ==>
      var moves := F.Split(basis, cum, quantity, fee, step).value;
      && F.Net(basis) != 0 && cum <= Abs(F.Net(basis))
      && (forall k :: 0 <= k < |moves| ==> moves[k].size != 0)
      && forall i, j :: 0 <= i < j < |moves| ==> moves[i].owner != moves[j].owner
  {
    hide F.Split, F.PieceSizes;
    F.SplitLaw(basis, cum, quantity, fee, step);
    B.SplitMovesNonzero(basis, cum, quantity, fee, step);
    if F.Split(basis, cum, quantity, fee, step).Ok? {
      MovedDistinct(basis, F.PieceSizes(basis, cum, quantity));
    }
  }

  // A trade's ledger fills: one symbol, one price, one partition each, and together the trade.
  lemma FillsTrade(c: Config, cloid: string, cum: nat, quantity: nat, price: real, fee: real)
    requires Good(c) && cloid in c.terms && !Turns(c.terms[cloid]) && 0 < quantity <= cum
    ensures FillsOf(c, cloid, cum, quantity, price, fee).Some? ==>
      var fills, t := FillsOf(c, cloid, cum, quantity, price, fee).value, c.terms[cloid];
      && OneTrade(fills, t.symbol, price) && DistinctKeys(fills)
      && SignedTotal(fills) == SignedQuantity(B.Coins(quantity, c.lot(t.symbol)), t.side)
      && FeeTotal(fills) == fee
      && (t.basis.None? ==> |fills| == 1 && fills[0].key == Key(t.owner, t.symbol))
  {
    hide F.Split, B.Coins, F.Net;
    var t := c.terms[cloid];
    var lot := c.lot(t.symbol);
    B.LotsAdd(quantity, 0 - quantity, lot);
    var r := FillsOf(c, cloid, cum, quantity, price, fee);
    if t.basis.Some? && r.Some? {
      var basis := t.basis.value;
      var moves := F.Split(basis, cum, quantity, fee, c.step).value;
      SplitNever(basis, cum, quantity, fee, c.step);
      F.SplitLaw(basis, cum, quantity, fee, c.step);
      B.PiecesTotals(t.symbol, moves, lot, price);
      PiecesKeys(t.symbol, moves, lot, price);
    } else if r.Some? {
      assert SignedTotal(r.value) == r.value[0].signed + SignedTotal(r.value[1..]);
      assert FeeTotal(r.value) == r.value[0].fee + FeeTotal(r.value[1..]);
    }
  }

  // ----- What has been booked, in order -----

  datatype Booking =
    | FillBooked(cloid: string, trade: string, quantity: nat, price: real, fee: real)
    | FundingBooked(symbol: Symbol, boundary: int, amount: real)
    | LeftoverBooked(symbol: Symbol, ts: int, owners: seq<Owner>)
    | HealBooked(ts: int, fills: seq<Fill>, netCash: Option<real>)

  function CumIn(log: seq<Booking>, cloid: string): nat {
    if log == [] then 0 else
      var b := log[|log| - 1];
      CumIn(log[..|log| - 1], cloid) + if b.FillBooked? && b.cloid == cloid then b.quantity else 0
  }

  predicate InLog(log: seq<Booking>, cloid: string, trade: string) {
    exists i :: 0 <= i < |log| && log[i].FillBooked? && log[i].cloid == cloid && log[i].trade == trade
  }

  predicate StampIn(log: seq<Booking>, s: Symbol, ts: int) {
    exists i :: 0 <= i < |log| && log[i].LeftoverBooked? && log[i].symbol == s && log[i].ts == ts
  }

  predicate HealIn(log: seq<Booking>, ts: int) {
    exists i :: 0 <= i < |log| && log[i].HealBooked? && log[i].ts == ts
  }

  function MarkIn(log: seq<Booking>, s: Symbol): Option<int> {
    if log == [] then None else
      var b := log[|log| - 1];
      if b.FundingBooked? && b.symbol == s then Some(b.boundary) else MarkIn(log[..|log| - 1], s)
  }

  predicate Bookable(c: Config, log: seq<Booking>, b: Booking)
    requires c.step > 0.0
  {
    match b
    case FillBooked(cloid, trade, quantity, price, fee) =>
      && cloid in c.terms && !Turns(c.terms[cloid]) && quantity > 0 && !InLog(log, cloid, trade)
      && FillsOf(c, cloid, CumIn(log, cloid) + quantity, quantity, price, fee).Some?
    case FundingBooked(s, boundary, _) =>
      boundary > c.genesisTs && (MarkIn(log, s).Some? ==> boundary > MarkIn(log, s).value)
    case LeftoverBooked(s, ts, owners) => !StampIn(log, s, ts) && Distinct(owners)
    case HealBooked(ts, fills, _) => !HealIn(log, ts) && HealsSizes(fills)
  }

  // Every fill once, every funding boundary of a symbol once and in order.
  ghost predicate Sequenced(c: Config, log: seq<Booking>)
    requires c.step > 0.0
  {
    log == [] || (Sequenced(c, log[..|log| - 1]) && Bookable(c, log[..|log| - 1], log[|log| - 1]))
  }

  ghost function Effect(c: Config, l: Ledger, log: seq<Booking>, b: Booking): Ledger
    requires c.step > 0.0 && Bookable(c, log, b)
  {
    match b
    case FillBooked(cloid, trade, quantity, price, fee) =>
      (match FillsOf(c, cloid, CumIn(log, cloid) + quantity, quantity, price, fee)
       case Some(fills) => BookAll(l, fills)
       case None => l)
    case FundingBooked(s, _, amount) => BookFunding(l, s, amount)
    case LeftoverBooked(s, _, owners) => BookAll(l, L.LeftoverFills(l, s, owners))
    case HealBooked(_, fills, netCash) => Healed(l, fills, netCash)
  }

  // The ledger a log leaves, from genesis, each fill split afresh by its cumulative quantity.
  ghost function Replay(c: Config, log: seq<Booking>): Ledger
    requires c.step > 0.0 && Sequenced(c, log)
  {
    if log == [] then c.genesis else
      Effect(c, Replay(c, log[..|log| - 1]), log[..|log| - 1], log[|log| - 1])
  }

  // ----- The engine -----

  datatype Durable = Durable(orders: map<string, Saga>, ledger: Ledger, marks: map<Symbol, int>)

  // A fold the store has not seen yet, with the partitions its write names.
  datatype Unwritten = Unwritten(booking: Booking, rows: set<Key>)

  datatype Memory = Memory(orders: map<string, Saga>, book: Book, pending: Option<Unwritten>)

  // `log` is the history of completed ledger transactions.
  datatype Engine = Engine(durable: Durable, memory: Option<Memory>, log: seq<Booking>)

  // `denied` is the guard's answer at place.
  datatype Event =
    | Placed(cloid: string, denied: bool)
    | StatusApplied(cloid: string, state: State)
    | Checkpointed(cloid: string)
    | FillFolded(cloid: string, trade: string, quantity: int, price: real, fee: real)
    | FundingFolded(symbol: Symbol, boundary: int, amount: real)
    | LeftoverFolded(symbol: Symbol, ts: int, owners: seq<Owner>)
    | HealFolded(ts: int, fills: seq<Fill>, netCash: Option<real>)
    | Written
    | Crashed
    | Recovered

  // The write names only the rows that moved, beside the cash line.
  function WriteRows(d: Ledger, m: Ledger, rows: set<Key>): Ledger {
    Ledger(m.cash, d.positions + map k | k in m.positions && k in rows :: m.positions[k])
  }

  function ExposedKeys(m: map<Key, Pos>, s: Symbol): set<Key> {
    set k | k in m && Exposed(k, m[k], s)
  }

  predicate Gated(c: Config, marks: map<Symbol, int>, s: Symbol, boundary: int) {
    boundary <= c.genesisTs || (s in marks && boundary <= marks[s])
  }

  ghost function FoldFill(c: Config, e: Engine, cloid: string, trade: string, quantity: int, price: real,
                          fee: real): Engine
    requires c.step > 0.0 && e.memory.Some?
  {
    var m := e.memory.value;
    if cloid !in m.orders || cloid !in c.terms then e else
      match Attempt(m.orders[cloid], Fact.Fill(trade, quantity))
      case Duplicate => e
      case Illegal => e.(memory := None)
      case Advanced(order) =>
        match FillsOf(c, cloid, order.cum, quantity, price, fee)
        case None => e.(memory := None)
        case Some(fills) =>
          e.(memory := Some(Memory(m.orders[cloid := order],
            TakeAll(m.book, OriginOf(c, cloid, trade), fills),
            Some(Unwritten(FillBooked(cloid, trade, quantity, price, fee), KeysOf(fills))))))
  }

  ghost function Next(c: Config, e: Engine, ev: Event): Engine
    requires c.step > 0.0
  {
    match e.memory
    case None =>
      if ev.Recovered? then e.(memory := Some(Memory(e.durable.orders, Unseen(e.durable.ledger), None))) else e
    case Some(m) =>
      if ev.Crashed? then e.(memory := None)
      else if m.pending.Some? then
        var b := m.pending.value.booking;
        if !ev.Written? || (b.FillBooked? && b.cloid !in m.orders) then e else
        var d := e.durable;
        Engine(
          Durable(
            if b.FillBooked? then d.orders[b.cloid := m.orders[b.cloid]] else d.orders,
            WriteRows(d.ledger, m.book.ledger, m.pending.value.rows),
            if b.FundingBooked? then d.marks[b.symbol := b.boundary] else d.marks),
          Some(m.(pending := None)), e.log + [b])
      else
        match ev
        case Placed(cloid, denied) =>
          if cloid in m.orders || cloid !in c.terms then e else
          var order := Start(c.terms[cloid].quantity, denied || Turns(c.terms[cloid]));
          e.(durable := e.durable.(orders := e.durable.orders[cloid := order]),
             memory := Some(m.(orders := m.orders[cloid := order])))
        case StatusApplied(cloid, state) =>
          if cloid !in m.orders then e else
          (match Handle(m.orders[cloid], Status(state))
           case None => e.(memory := None)
           case Some(order) => e.(memory := Some(m.(orders := m.orders[cloid := order]))))
        case Checkpointed(cloid) =>
          if cloid !in m.orders then e else
          e.(durable := e.durable.(orders := e.durable.orders[cloid := m.orders[cloid]]))
        case FillFolded(cloid, trade, quantity, price, fee) => FoldFill(c, e, cloid, trade, quantity, price, fee)
        case FundingFolded(s, boundary, amount) =>
          if Gated(c, e.durable.marks, s, boundary) then e else
          e.(memory := Some(Memory(m.orders, m.book.(ledger := BookFunding(m.book.ledger, s, amount)),
            Some(Unwritten(FundingBooked(s, boundary, amount), ExposedKeys(m.book.ledger.positions, s))))))
        case LeftoverFolded(s, ts, owners) =>
          // Each leftover move carries its own clock stamp.
          if StampIn(e.log, s, ts) || !Distinct(owners) then e else
          var fills := L.LeftoverFills(m.book.ledger, s, owners);
          if fills == [] then e else
          e.(memory := Some(Memory(m.orders, TakeAll(m.book, OfLeftover(s, ts), fills),
            Some(Unwritten(LeftoverBooked(s, ts, owners), KeysOf(fills))))))
        case HealFolded(ts, fills, netCash) =>
          // So does each cycle, and one that found nothing to heal writes nothing.
          if HealIn(e.log, ts) || !HealsSizes(fills) || (fills == [] && netCash.None?) then e else
          e.(memory := Some(Memory(m.orders, HealedBook(m.book, OfHeal(ts), fills, netCash),
            Some(Unwritten(HealBooked(ts, fills, netCash), KeysOf(fills))))))
        case _ => e
  }

  ghost function RunFrom(c: Config, events: seq<Event>): Engine
    requires c.step > 0.0
  {
    if events == [] then Engine(Durable(map[], c.genesis, map[]), None, [])
    else Next(c, RunFrom(c, events[..|events| - 1]), events[|events| - 1])
  }

  lemma RunSteps(c: Config, events: seq<Event>, ev: Event)
    requires c.step > 0.0
    ensures RunFrom(c, events + [ev]) == Next(c, RunFrom(c, events), ev)
    ensures RunFrom(c, []) == Engine(Durable(map[], c.genesis, map[]), None, [])
  {
    assert (events + [ev])[..|events|] == events;
  }

  // ----- What every reachable state keeps -----

  // An order reflects exactly the log's fills of it.
  ghost predicate Reflects(order: Saga, log: seq<Booking>, cloid: string) {
    && order.cum == CumIn(log, cloid)
    && forall t :: TradeKey(t) in order.applied <==> InLog(log, cloid, t)
  }

  ghost predicate AllReflect(orders: map<string, Saga>, log: seq<Booking>) {
    && (forall cloid :: cloid in orders ==> Reflects(orders[cloid], log, cloid))
    && forall i :: 0 <= i < |log| && log[i].FillBooked? ==> log[i].cloid in orders
  }

  predicate Backed(id: EventId, log: seq<Booking>) {
    match id
    case FillId(cloid, trade) => InLog(log, cloid, trade)
    case PieceId(cloid, trade, _) => InLog(log, cloid, trade)
    case LeftoverId(s, ts, _) => StampIn(log, s, ts)
    case ReconcileId(_, ts) => HealIn(log, ts)
  }

  // A dedup id in memory belongs to something booked.
  ghost predicate SeenBooked(b: Book, log: seq<Booking>) {
    forall key, id {:trigger id in SeenAt(b, key)} :: id in SeenAt(b, key) ==> Backed(id, log)
  }

  ghost predicate MarksMatch(marks: map<Symbol, int>, log: seq<Booking>) {
    forall s :: MarkIn(log, s) == if s in marks then Some(marks[s]) else None
  }

  // An order keeps the quantity it was placed with, and one the split turns away ends there.
  ghost predicate AllPlaced(c: Config, orders: map<string, Saga>) {
    forall cloid :: cloid in orders ==>
      && cloid in c.terms && orders[cloid].quantity == c.terms[cloid].quantity
      && (Turns(c.terms[cloid]) ==> orders[cloid].state.Denied?)
  }

  // No fact moves a denied order, and none denies another.
  lemma AdvanceKeepsPlaced(s: Saga, f: Fact)
    requires Attempt(s, f).Advanced?
    ensures var next := Attempt(s, f).value; next.quantity == s.quantity && !s.state.Denied? && !next.state.Denied?
  {}

  ghost predicate StoreSound(c: Config, d: Durable, log: seq<Booking>)
    requires c.step > 0.0
  {
    && Sequenced(c, log)
    && d.ledger == Replay(c, log)
    && AllReflect(d.orders, log)
    && AllPlaced(c, d.orders)
    && MarksMatch(d.marks, log)
  }

  ghost predicate MemorySound(c: Config, m: Memory, d: Durable, log: seq<Booking>)
    requires c.step > 0.0
  {
    && m.orders.Keys == d.orders.Keys && AllPlaced(c, m.orders)
    && match m.pending
       case None => m.book.ledger == d.ledger && AllReflect(m.orders, log) && SeenBooked(m.book, log)
       case Some(p) =>
         var next := log + [p.booking];
         && Sequenced(c, next)
         && m.book.ledger == Replay(c, next)
         && AllReflect(m.orders, next) && SeenBooked(m.book, next)
         && AgreeOff(d.ledger.positions, m.book.ledger.positions, p.rows)
  }

  ghost predicate Sound(c: Config, e: Engine)
    requires c.step > 0.0
  {
    StoreSound(c, e.durable, e.log) && (e.memory.Some? ==> MemorySound(c, e.memory.value, e.durable, e.log))
  }

  lemma LogGrows(log: seq<Booking>, b: Booking)
    ensures (log + [b])[..|log|] == log && (log + [b])[|log|] == b
    ensures forall cloid, t :: InLog(log + [b], cloid, t) <==>
              InLog(log, cloid, t) || (b.FillBooked? && b.cloid == cloid && b.trade == t)
    ensures forall s, ts :: StampIn(log + [b], s, ts) <==>
              StampIn(log, s, ts) || (b.LeftoverBooked? && b.symbol == s && b.ts == ts)
    ensures forall ts :: HealIn(log + [b], ts) <==> HealIn(log, ts) || (b.HealBooked? && b.ts == ts)
  {
    var next := log + [b];
    assert next[..|log|] == log && next[|log|] == b;
    forall cloid, t | InLog(log, cloid, t) ensures InLog(next, cloid, t) {
      var i :| 0 <= i < |log| && log[i].FillBooked? && log[i].cloid == cloid && log[i].trade == t;
      assert next[i] == log[i];
    }
    forall s, ts | StampIn(log, s, ts) ensures StampIn(next, s, ts) {
      var i :| 0 <= i < |log| && log[i].LeftoverBooked? && log[i].symbol == s && log[i].ts == ts;
      assert next[i] == log[i];
    }
    forall ts | HealIn(log, ts) ensures HealIn(next, ts) {
      var i :| 0 <= i < |log| && log[i].HealBooked? && log[i].ts == ts;
      assert next[i] == log[i];
    }
  }

  lemma ReplayStep(c: Config, log: seq<Booking>, b: Booking)
    requires c.step > 0.0 && Sequenced(c, log) && Bookable(c, log, b)
    ensures Sequenced(c, log + [b]) && Replay(c, log + [b]) == Effect(c, Replay(c, log), log, b)
  {
    hide Effect, Bookable;
    LogGrows(log, b);
  }

  // Fills whose origin is new book in full, and leave their dedup ids behind.
  lemma BookStep(book: Book, o: Origin, fills: seq<Fill>, log: seq<Booking>, b: Booking)
    requires SeenBooked(book, log) && DistinctKeys(fills)
    requires match o
             case OfFill(cloid, t) => !InLog(log, cloid, t) && b.FillBooked? && b.cloid == cloid && b.trade == t
             case OfSplit(cloid, t) => !InLog(log, cloid, t) && b.FillBooked? && b.cloid == cloid && b.trade == t
             case OfLeftover(s, ts) => !StampIn(log, s, ts) && b.LeftoverBooked? && b.symbol == s && b.ts == ts
             case OfHeal(ts) => !HealIn(log, ts) && b.HealBooked? && b.ts == ts
    ensures TakeAll(book, o, fills).ledger == BookAll(book.ledger, fills)
    ensures AgreeOff(book.ledger.positions, BookAll(book.ledger, fills).positions, KeysOf(fills))
    ensures SeenBooked(TakeAll(book, o, fills), log + [b])
  {
    hide TakeAll, BookAll;
    LogGrows(log, b);
    TakeAllBooks(book, o, fills);
    BookAllRows(book.ledger, fills);
  }

  // A fold under way: the store as it was, the memory a booking ahead of the log.
  lemma FoldedIsSound(c: Config, e: Engine, m: Memory)
    requires c.step > 0.0 && Sound(c, e) && MemorySound(c, m, e.durable, e.log)
    ensures Sound(c, e.(memory := Some(m)))
  {
    hide StoreSound, MemorySound;
  }

  lemma PlacedStep(c: Config, orders: map<string, Saga>, cloid: string, f: Fact)
    requires AllPlaced(c, orders) && cloid in orders && Attempt(orders[cloid], f).Advanced?
    ensures !Turns(c.terms[cloid]) && AllPlaced(c, orders[cloid := Attempt(orders[cloid], f).value])
  {
    hide Turns, Attempt;
    AdvanceKeepsPlaced(orders[cloid], f);
  }

  lemma FillKeepsSound(c: Config, e: Engine, cloid: string, trade: string, quantity: int, price: real, fee: real)
    requires Good(c) && Sound(c, e) && e.memory.Some? && e.memory.value.pending.None?
    ensures Sound(c, FoldFill(c, e, cloid, trade, quantity, price, fee))
  {
    hide Replay, Sequenced, BookAll, FillsOf, Legal, TakeAll, AgreeOff, AllReflect, AllPlaced, SeenBooked, Turns;
    var m, f := e.memory.value, Fact.Fill(trade, quantity);
    if cloid in m.orders && cloid in c.terms && Attempt(m.orders[cloid], f).Advanced? {
      var order := Attempt(m.orders[cloid], f).value;
      PlacedStep(c, m.orders, cloid, f);
      CumReads(m.orders, e.log, cloid);
      var r := FillsOf(c, cloid, order.cum, quantity, price, fee);
      if r.Some? {
        var b := FillBooked(cloid, trade, quantity, price, fee);
        FillsTrade(c, cloid, order.cum, quantity, price, fee);
        BookStep(m.book, OriginOf(c, cloid, trade), r.value, e.log, b);
        ReplayStep(c, e.log, b);
        LogGrows(e.log, b);
        AllReflectStep(m.orders, e.log, b, order);
        FoldedIsSound(c, e, FoldFill(c, e, cloid, trade, quantity, price, fee).memory.value);
      }
    }
  }

  lemma CumReads(orders: map<string, Saga>, log: seq<Booking>, cloid: string)
    requires AllReflect(orders, log) && cloid in orders
    ensures orders[cloid].cum == CumIn(log, cloid)
    ensures forall t :: TradeKey(t) in orders[cloid].applied <==> InLog(log, cloid, t)
  {}

  lemma AllReflectStep(orders: map<string, Saga>, log: seq<Booking>, b: Booking, order: Saga)
    requires AllReflect(orders, log)
    requires b.FillBooked? ==>
      && b.cloid in orders
      && order.cum == orders[b.cloid].cum + b.quantity
      && order.applied == orders[b.cloid].applied + {TradeKey(b.trade)}
    ensures AllReflect(if b.FillBooked? then orders[b.cloid := order] else orders, log + [b])
  {
    LogGrows(log, b);
    var next, after := log + [b], if b.FillBooked? then orders[b.cloid := order] else orders;
    forall cloid | cloid in after ensures Reflects(after[cloid], next, cloid) {
      assert Reflects(orders[cloid], log, cloid);
    }
  }

  lemma SeenStays(before: Book, after: Book, log: seq<Booking>, b: Booking)
    requires SeenBooked(before, log) && after.seen == before.seen
    ensures SeenBooked(after, log + [b])
  {
    LogGrows(log, b);
    forall key, id | id in SeenAt(after, key) ensures Backed(id, log + [b]) {
      assert id in SeenAt(before, key);
    }
  }

  lemma FundingKeepsSound(c: Config, e: Engine, s: Symbol, boundary: int, amount: real)
    requires Good(c) && Sound(c, e) && e.memory.Some? && e.memory.value.pending.None?
    ensures Sound(c, Next(c, e, FundingFolded(s, boundary, amount)))
  {
    hide Replay, Sequenced, AccountNet, FundingShare, BookFill;
    var m, b := e.memory.value, FundingBooked(s, boundary, amount);
    if Bookable(c, e.log, b) {
      ReplayStep(c, e.log, b);
      LogGrows(e.log, b);
      AllReflectStep(m.orders, e.log, b, Sagas.Fresh(1));
      SeenStays(m.book, m.book.(ledger := BookFunding(m.book.ledger, s, amount)), e.log, b);
    }
  }

  lemma {:induction false} ClosingKeys(l: Ledger, s: Symbol, owners: seq<Owner>)
    requires Distinct(owners)
    ensures var fills := L.Closings(l, s, owners);
      && DistinctKeys(fills)
      && forall i :: 0 <= i < |fills| ==> fills[i].key.owner.Strategy? && fills[i].key.owner in owners
  {
    if owners != [] {
      ClosingKeys(l, s, owners[..|owners| - 1]);
    }
  }

  lemma LeftoverKeepsSound(c: Config, e: Engine, s: Symbol, ts: int, owners: seq<Owner>)
    requires Good(c) && Sound(c, e) && e.memory.Some? && e.memory.value.pending.None?
    ensures Sound(c, Next(c, e, LeftoverFolded(s, ts, owners)))
  {
    hide Replay, Sequenced, BookAll, TakeAll, L.Closings, L.MovedSize, L.MovedCost;
    var m, b := e.memory.value, LeftoverBooked(s, ts, owners);
    if Bookable(c, e.log, b) {
      var fills := L.LeftoverFills(m.book.ledger, s, owners);
      ClosingKeys(m.book.ledger, s, owners);
      BookStep(m.book, OfLeftover(s, ts), fills, e.log, b);
      ReplayStep(c, e.log, b);
      LogGrows(e.log, b);
      AllReflectStep(m.orders, e.log, b, Sagas.Fresh(1));
    }
  }

  lemma HealKeepsSound(c: Config, e: Engine, ts: int, fills: seq<Fill>, netCash: Option<real>)
    requires Good(c) && Sound(c, e) && e.memory.Some? && e.memory.value.pending.None?
    ensures Sound(c, Next(c, e, HealFolded(ts, fills, netCash)))
  {
    hide Replay, Sequenced, BookAll, TakeAll;
    var m, b := e.memory.value, HealBooked(ts, fills, netCash);
    if Bookable(c, e.log, b) {
      BookStep(m.book, OfHeal(ts), fills, e.log, b);
      ReplayStep(c, e.log, b);
      LogGrows(e.log, b);
      AllReflectStep(m.orders, e.log, b, Sagas.Fresh(1));
      var taken := TakeAll(m.book, OfHeal(ts), fills);
      assert forall key :: SeenAt(HealedBook(m.book, OfHeal(ts), fills, netCash), key) == SeenAt(taken, key);
    }
  }

  // The rows a write names bring the store's ledger to the memory's.
  lemma RowsLand(d: Ledger, m: Ledger, rows: set<Key>)
    requires AgreeOff(d.positions, m.positions, rows)
    ensures WriteRows(d, m, rows) == m
  {
    assert WriteRows(d, m, rows).positions == m.positions;
  }

  lemma MarkLands(marks: map<Symbol, int>, log: seq<Booking>, b: Booking)
    requires MarksMatch(marks, log)
    ensures MarksMatch(if b.FundingBooked? then marks[b.symbol := b.boundary] else marks, log + [b])
  {
    LogGrows(log, b);
  }

  // And its order row is the memory's.
  lemma OrderLands(orders: map<string, Saga>, memory: map<string, Saga>, log: seq<Booking>, b: Booking)
    requires AllReflect(orders, log) && AllReflect(memory, log + [b]) && orders.Keys == memory.Keys
    ensures b.FillBooked? ==> b.cloid in memory
    ensures AllReflect(if b.FillBooked? then orders[b.cloid := memory[b.cloid]] else orders, log + [b])
  {
    LogGrows(log, b);
    var next := log + [b];
    assert b.FillBooked? ==> next[|log|].cloid in memory;
    var after := if b.FillBooked? then orders[b.cloid := memory[b.cloid]] else orders;
    forall cloid | cloid in after ensures Reflects(after[cloid], next, cloid) {
      assert Reflects(orders[cloid], log, cloid);
      assert Reflects(memory[cloid], next, cloid);
    }
  }

  lemma WriteKeepsSound(c: Config, e: Engine)
    requires Good(c) && Sound(c, e) && e.memory.Some? && e.memory.value.pending.Some?
    ensures Sound(c, Next(c, e, Written))
  {
    hide Replay, Sequenced, AllReflect, SeenBooked, MarksMatch, AgreeOff, WriteRows, Turns;
    var m := e.memory.value;
    var b := m.pending.value.booking;
    RowsLand(e.durable.ledger, m.book.ledger, m.pending.value.rows);
    MarkLands(e.durable.marks, e.log, b);
    OrderLands(e.durable.orders, m.orders, e.log, b);
  }

  // An order not placed before has nothing booked.
  lemma NewReflects(orders: map<string, Saga>, log: seq<Booking>, cloid: string, order: Saga)
    requires AllReflect(orders, log) && cloid !in orders && order.cum == 0 && forall t :: TradeKey(t) !in order.applied
    ensures AllReflect(orders[cloid := order], log)
  {
    NeverFilled(log, cloid);
  }

  lemma PlaceKeepsSound(c: Config, e: Engine, cloid: string, denied: bool)
    requires c.step > 0.0 && Sound(c, e) && e.memory.Some? && e.memory.value.pending.None?
    ensures Sound(c, Next(c, e, Placed(cloid, denied)))
  {
    hide Replay, Sequenced, MarksMatch, Turns, SeenBooked, AllReflect;
    var m := e.memory.value;
    if cloid !in m.orders && cloid in c.terms {
      var order := Start(c.terms[cloid].quantity, denied || Turns(c.terms[cloid]));
      NewReflects(m.orders, e.log, cloid, order);
      NewReflects(e.durable.orders, e.log, cloid, order);
    }
  }

  lemma StatusKeepsSound(c: Config, e: Engine, cloid: string, state: State)
    requires c.step > 0.0 && Sound(c, e) && e.memory.Some? && e.memory.value.pending.None?
    ensures Sound(c, Next(c, e, StatusApplied(cloid, state)))
  {
    hide Replay, Sequenced, MarksMatch, Turns, Legal, AllPlaced, SeenBooked, CumIn;
    var orders := e.memory.value.orders;
    if cloid in orders {
      assert orders[cloid := orders[cloid]] == orders;
      if Attempt(orders[cloid], Status(state)).Advanced? {
        PlacedStep(c, orders, cloid, Status(state));
      }
    }
  }

  lemma StepKeepsSound(c: Config, e: Engine, ev: Event)
    requires Good(c) && Sound(c, e)
    ensures Sound(c, Next(c, e, ev))
  {
    hide Replay, Sequenced, FoldFill, TakeAll, BookFunding, ExposedKeys, WriteRows, AgreeOff, MarksMatch, Legal, Turns;
    hide HealedBook, Gated;
    if e.memory.Some? && !ev.Crashed? {
      var m := e.memory.value;
      if m.pending.Some? {
        if ev.Written? {
          WriteKeepsSound(c, e);
        }
      } else {
        match ev
        case FillFolded(cloid, trade, quantity, price, fee) => FillKeepsSound(c, e, cloid, trade, quantity, price, fee);
        case FundingFolded(s, boundary, amount) => FundingKeepsSound(c, e, s, boundary, amount);
        case LeftoverFolded(s, ts, owners) => LeftoverKeepsSound(c, e, s, ts, owners);
        case HealFolded(ts, fills, netCash) => HealKeepsSound(c, e, ts, fills, netCash);
        case Placed(cloid, denied) => PlaceKeepsSound(c, e, cloid, denied);
        case StatusApplied(cloid, state) => StatusKeepsSound(c, e, cloid, state);
        case _ =>
      }
    }
  }

  // An order that does not exist yet has no fills.
  lemma {:induction false} NeverFilled(log: seq<Booking>, cloid: string)
    ensures (forall i :: 0 <= i < |log| && log[i].FillBooked? ==> log[i].cloid != cloid) ==>
      CumIn(log, cloid) == 0 && forall t :: !InLog(log, cloid, t)
  {
    if log != [] {
      NeverFilled(log[..|log| - 1], cloid);
    }
  }

  lemma {:induction false} EveryRunSound(c: Config, events: seq<Event>)
    requires Good(c)
    ensures Sound(c, RunFrom(c, events))
  {
    hide Next;
    if events != [] {
      EveryRunSound(c, events[..|events| - 1]);
      StepKeepsSound(c, RunFrom(c, events[..|events| - 1]), events[|events| - 1]);
    }
  }

  /** Exactly once: in every state any run of deliveries, redeliveries, folds, writes, crashes and
      recoveries reaches, the durable ledger is the fold from genesis of a log that holds each fill
      once, and the fills in that log are exactly those the durable orders reflect. */
  lemma ExactlyOnce(c: Config, events: seq<Event>)
    requires Good(c)
    ensures var e := RunFrom(c, events);
      && Sequenced(c, e.log) && e.durable.ledger == Replay(c, e.log)
      && (forall i, j :: 0 <= i < j < |e.log| && e.log[i].FillBooked? && e.log[j].FillBooked? ==>
            (e.log[i].cloid, e.log[i].trade) != (e.log[j].cloid, e.log[j].trade))
      && (forall cloid, t :: InLog(e.log, cloid, t) <==>
            cloid in e.durable.orders && TradeKey(t) in e.durable.orders[cloid].applied)
      && (e.memory.Some? && e.memory.value.pending.None? ==> e.memory.value.book.ledger == e.durable.ledger)
  {
    EveryRunSound(c, events);
    var e := RunFrom(c, events);
    OnceEach(c, e.log);
  }

  // The split answers as long as the venue fills no more of a let-through order than was asked.
  lemma SplitAnswers(c: Config, cloid: string, cum: nat, quantity: nat, price: real, fee: real)
    requires Good(c) && cloid in c.terms && !Turns(c.terms[cloid])
    requires 0 < quantity <= cum <= c.terms[cloid].quantity
    ensures FillsOf(c, cloid, cum, quantity, price, fee).Some?
  {
    hide F.Split, F.Net;
    var t := c.terms[cloid];
    if t.basis.Some? {
      F.SplitLaw(t.basis.value, cum, quantity, fee, c.step);
    }
  }

  // Whether a fill the order takes, within the quantity it was placed with, has its ledger fills.
  predicate Answered(c: Config, order: Saga, cloid: string, trade: string, quantity: int, price: real, fee: real)
    requires c.step > 0.0 && cloid in c.terms
  {
    Recorded(order, trade, quantity).Advanced? && order.cum + quantity <= order.quantity ==>
      FillsOf(c, cloid, order.cum + quantity, quantity, price, fee).Some?
  }

  /** And no fill is lost to its split, in any state any run reaches. */
  lemma NoSplitFault(c: Config, events: seq<Event>, cloid: string, trade: string, quantity: int, price: real, fee: real)
    requires Good(c) && RunFrom(c, events).memory.Some? && cloid in RunFrom(c, events).memory.value.orders
    ensures cloid in c.terms
    ensures Answered(c, RunFrom(c, events).memory.value.orders[cloid], cloid, trade, quantity, price, fee)
  {
    hide Legal, FillsOf, Turns, StoreSound, RunFrom, AllReflect, SeenBooked, AgreeOff, Replay, Sequenced;
    EveryRunSound(c, events);
    var s := RunFrom(c, events).memory.value.orders[cloid];
    if Recorded(s, trade, quantity).Advanced? && s.cum + quantity <= s.quantity {
      AdvanceKeepsPlaced(s, Fact.Fill(trade, quantity));
      SplitAnswers(c, cloid, s.cum + quantity, quantity, price, fee);
    }
  }

  // The order a fill leaves, field by field.
  predicate TookFill(s: Saga, next: Saga, trade: string, quantity: nat) {
    && next.quantity == s.quantity && next.cum == s.cum + quantity
    && next.state == (if s.cum + quantity >= s.quantity then Filled else PartiallyFilled)
    && next.applied == s.applied + {TradeKey(trade)}
  }

  predicate TakesFills(s: Saga) {
    s.state == Submitted || s.state == Live || s.state == PartiallyFilled
  }

  // A new fill of a working order, within what was asked.
  predicate NewFill(e: Engine, cloid: string, trade: string, quantity: nat) {
    && e.memory.Some? && e.memory.value.pending.None? && cloid in e.memory.value.orders
    && var s := e.memory.value.orders[cloid];
       TakesFills(s) && TradeKey(trade) !in s.applied && quantity > 0 && s.cum + quantity <= s.quantity
  }

  lemma NewFillAdvances(s: Saga, trade: string, quantity: nat)
    requires TakesFills(s) && TradeKey(trade) !in s.applied && quantity > 0
    ensures var next := Saga(s.quantity, if s.cum + quantity >= s.quantity then Filled else PartiallyFilled,
                             s.cum + quantity, s.applied + {TradeKey(trade)});
      && Attempt(s, Fact.Fill(trade, quantity)) == Advanced(next)
      && Attempt(next, Fact.Fill(trade, quantity)) == Step.Duplicate
  {}

  /** Nor is a fill ever lost: in any state any run reaches, a new fill of a working order books once its
      write lands. The log ends with it, the durable order holds it, and a redelivery changes nothing. */
  lemma FillLands(c: Config, events: seq<Event>, cloid: string, trade: string, quantity: nat, price: real, fee: real)
    requires Good(c) && NewFill(RunFrom(c, events), cloid, trade, quantity)
    ensures var e := RunFrom(c, events); var s := e.memory.value.orders[cloid];
      var fold := FillFolded(cloid, trade, quantity, price, fee);
      var after := Next(c, Next(c, e, fold), Written);
      && after.log == e.log + [FillBooked(cloid, trade, quantity, price, fee)]
      && cloid in after.durable.orders && TookFill(s, after.durable.orders[cloid], trade, quantity)
      && after.memory.Some? && after.memory.value.pending.None?
      && after.memory.value.orders == e.memory.value.orders[cloid := after.durable.orders[cloid]]
      && Next(c, after, fold) == after
  {
    hide FillsOf, TakeAll, WriteRows, KeysOf, RunFrom, Attempt, Sound;
    var e := RunFrom(c, events);
    var s := e.memory.value.orders[cloid];
    NewFillAdvances(s, trade, quantity);
    NoSplitFault(c, events, cloid, trade, quantity, price, fee);
  }

  /** What a status does, and that a checkpoint makes it last: the saga the store holds then is the
      memory's, and it is what comes back behind a crash. */
  lemma CheckpointLasts(c: Config, e: Engine, cloid: string, state: State)
    requires c.step > 0.0 && e.memory.Some? && e.memory.value.pending.None? && cloid in e.memory.value.orders
    requires Handle(e.memory.value.orders[cloid], Status(state)).Some?
    ensures var order := Handle(e.memory.value.orders[cloid], Status(state)).value;
      var applied := Next(c, e, StatusApplied(cloid, state));
      var saved := Next(c, applied, Checkpointed(cloid));
      var back := Next(c, Next(c, saved, Crashed), Recovered);
      && applied == e.(memory := Some(e.memory.value.(orders := e.memory.value.orders[cloid := order])))
      && saved == applied.(durable := e.durable.(orders := e.durable.orders[cloid := order]))
      && back.durable == saved.durable && back.log == e.log && back.memory.Some? && back.memory.value.pending.None?
      && back.memory.value.orders == saved.durable.orders
      && back.memory.value.book.ledger == e.durable.ledger
      && forall key :: SeenAt(back.memory.value.book, key) == {}
  {
    hide Handle;
  }

  // A status the saga cannot take faults the run, and a fault is a crash: the store keeps what it held.
  lemma StatusFaults(c: Config, e: Engine, cloid: string, state: State)
    requires c.step > 0.0 && e.memory.Some? && e.memory.value.pending.None? && cloid in e.memory.value.orders
    requires Handle(e.memory.value.orders[cloid], Status(state)).None?
    ensures Next(c, e, StatusApplied(cloid, state)) == Engine(e.durable, None, e.log)
  {
    hide Handle;
  }

  // What a partition dedups a trade on: the trade's own id, or for a split one the piece's, which names
  // the partition's owner, so no two pieces share an id.
  lemma TradeIds(c: Config, cloid: string, trade: string, key: Key)
    requires cloid in c.terms
    ensures IdOf(OriginOf(c, cloid, trade), key) ==
      if c.terms[cloid].basis.None? then FillId(cloid, trade) else PieceId(cloid, trade, key.owner)
  {}

  /** A leftover move books once its write lands, under a stamp no move of the symbol used. */
  lemma LeftoverLands(c: Config, e: Engine, s: Symbol, ts: int, owners: seq<Owner>)
    requires c.step > 0.0 && e.memory.Some? && e.memory.value.pending.None?
    requires !StampIn(e.log, s, ts) && Distinct(owners)
    ensures var fills := L.LeftoverFills(e.memory.value.book.ledger, s, owners);
      var after := Next(c, Next(c, e, LeftoverFolded(s, ts, owners)), Written);
      if fills == [] then after == e else
        && after.log == e.log + [LeftoverBooked(s, ts, owners)]
        && after.memory == Some(e.memory.value.(book := TakeAll(e.memory.value.book, OfLeftover(s, ts), fills)))
        && Next(c, after, LeftoverFolded(s, ts, owners)) == after
  {
    hide TakeAll, WriteRows, KeysOf, L.LeftoverFills;
    LogGrows(e.log, LeftoverBooked(s, ts, owners));
  }

  lemma {:induction false} OnceEach(c: Config, log: seq<Booking>)
    requires c.step > 0.0 && Sequenced(c, log)
    ensures forall i, j :: 0 <= i < j < |log| && log[i].FillBooked? && log[j].FillBooked? ==>
      (log[i].cloid, log[i].trade) != (log[j].cloid, log[j].trade)
  {
    if log != [] {
      var init, last := log[..|log| - 1], log[|log| - 1];
      OnceEach(c, init);
      forall i | 0 <= i < |init| && log[i].FillBooked? && last.FillBooked?
        ensures (log[i].cloid, log[i].trade) != (last.cloid, last.trade)
      {
        assert init[i] == log[i];
        assert InLog(init, log[i].cloid, log[i].trade);
      }
    }
  }

  // ----- What the store is worth -----

  function TradedBy(c: Config, b: Booking, s: Symbol): real {
    match b
    case FillBooked(cloid, _, quantity, _, _) =>
      if cloid in c.terms && c.terms[cloid].symbol == s
      then SignedQuantity(B.Coins(quantity, c.lot(s)), c.terms[cloid].side) else 0.0
    case HealBooked(_, fills, _) => TradedOn(fills, s)
    case _ => 0.0
  }

  // What one booking moves net cash by, behind the log it followed.
  ghost function CashBy(c: Config, log: seq<Booking>, b: Booking): real
    requires c.step > 0.0 && Sequenced(c, log) && Bookable(c, log, b)
  {
    match b
    case FillBooked(cloid, _, quantity, price, fee) =>
      var t := c.terms[cloid];
      0.0 - Notional(SignedQuantity(B.Coins(quantity, c.lot(t.symbol)), t.side), price) - fee
    case FundingBooked(_, _, amount) => amount
    case LeftoverBooked(s, _, owners) =>
      var l := Replay(c, log);
      if L.MovedSize(l, s, owners) == 0.0 then L.MovedCost(l, s, owners) else 0.0
    case HealBooked(_, fills, netCash) =>
      if netCash.Some? then netCash.value - NetCash(Replay(c, log)) else 0.0 - Outlay(fills)
  }

  function NetMoved(c: Config, log: seq<Booking>, s: Symbol): real {
    if log == [] then 0.0 else NetMoved(c, log[..|log| - 1], s) + TradedBy(c, log[|log| - 1], s)
  }

  ghost function CashMoved(c: Config, log: seq<Booking>): real
    requires c.step > 0.0 && Sequenced(c, log)
  {
    if log == [] then 0.0 else
      CashMoved(c, log[..|log| - 1]) + CashBy(c, log[..|log| - 1], log[|log| - 1])
  }

  lemma EffectWorth(c: Config, log: seq<Booking>, b: Booking)
    requires Good(c) && Sequenced(c, log) && Bookable(c, log, b)
    ensures var l := Replay(c, log);
      && NetCash(Effect(c, l, log, b)) == NetCash(l) + CashBy(c, log, b)
      && forall s :: AccountNet(Effect(c, l, log, b), s) == AccountNet(l, s) + TradedBy(c, b, s)
  {
    hide Replay, NetCash, AccountNet, Notional, BookAll, BookFunding, FillsOf, Healed;
    hide L.LeftoverFills, L.MovedSize, L.MovedCost, B.Coins;
    var l := Replay(c, log);
    match b
    case FillBooked(cloid, _, quantity, price, fee) =>
      var cum := CumIn(log, cloid) + quantity;
      FillsTrade(c, cloid, cum, quantity, price, fee);
      OneTradeLaw(l, FillsOf(c, cloid, cum, quantity, price, fee).value, c.terms[cloid].symbol, price);
    case FundingBooked(s, _, amount) => FundingLaw(l, s, amount);
    case LeftoverBooked(s, _, owners) => L.LeftoverLaw(l, s, owners);
    case HealBooked(_, fills, netCash) => HealedLaw(l, fills, netCash);
  }

  /** What survives any run of crashes is worth what its bookings are worth. Net cash is genesis less
      notional less fees plus funding; a leftover move shifts it only by a cost dropped with sizes that
      cancel, and a correction to the venue's figure. Each account net is what the fills and the heals
      traded, split or not. */
  lemma {:induction false} ReplayWorth(c: Config, log: seq<Booking>)
    requires Good(c) && Sequenced(c, log)
    ensures NetCash(Replay(c, log)) == NetCash(c.genesis) + CashMoved(c, log)
    ensures forall s :: AccountNet(Replay(c, log), s) == AccountNet(c.genesis, s) + NetMoved(c, log, s)
  {
    hide NetCash, AccountNet, Effect, CashBy, TradedBy, Bookable;
    if log != [] {
      ReplayWorth(c, log[..|log| - 1]);
      EffectWorth(c, log[..|log| - 1], log[|log| - 1]);
    }
  }
}
