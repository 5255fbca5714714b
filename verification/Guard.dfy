// The pre-trade guard: the position cap over whole runs of orders and fills, and the rate cap's
// sliding window. Sizes are whole lots.

module Guard {
  import opened Domain

  datatype Kind = Plain | ReduceOnly | Flatten

  // Closer to zero without crossing it.
  predicate Shrinks(before: int, after: int) {
    Abs(after) < Abs(before) && (after == 0 || (after > 0) == (before > 0))
  }

  datatype Reading = Reading(accountNet: int, strategyNet: int, openRemainder: nat, mark: Option<(real, int)>)

  // The venue's minimum notional, and the configured caps: `None` where one is not set. `markMaxAge`
  // bounds a mark's use for the value cap.
  datatype Limits = Limits(minNotional: real, maxOrderSize: Option<int>, maxOrderValue: Option<real>,
                           maxPosition: Option<int>, markMaxAge: int, rate: Option<Rate>)
  datatype Rate = Rate(maxOrders: nat, window: int)

  datatype Reason =
    | Tripped | RoundsToZero | BelowMinNotional | WouldNotReduce | AboveSize | NoMark | StaleMark
    | AboveValue | AbovePosition | AboveRate

  datatype Decision = Approved | Denied(reason: Reason)

  function Signed(side: Side, quantity: int): int {
    if side.Buy? then quantity else -quantity
  }

  // The position if every open order on the side fills, before this one.
  function Before(side: Side, net: int, open: nat): int {
    net + Signed(side, open)
  }

  // The value cap's price: a buy limit's own, otherwise the mark or worse.
  function ValuePrice(side: Side, price: Option<real>, mark: real): real {
    if price.Some? && price.value > mark then price.value else mark
  }

  function ValueCheck(side: Side, quantity: int, price: Option<real>, lot: real, reading: Reading, limits: Limits,
                      now: int): Option<Reason>
    requires limits.maxOrderValue.Some?
  {
    if price.Some? && side.Buy? then
      if quantity as real * lot * price.value > limits.maxOrderValue.value then Some(AboveValue) else None
    else if reading.mark.None? then Some(NoMark)
    else if now - reading.mark.value.1 > limits.markMaxAge then Some(StaleMark)
    else if quantity as real * lot * ValuePrice(side, price, reading.mark.value.0) > limits.maxOrderValue.value
    then Some(AboveValue) else None
  }

  // A limit order under the minimum passes only where it is reduce-only and closes the whole net.
  predicate MinNotionalRefuses(kind: Kind, side: Side, quantity: int, price: real, lot: real, net: int,
                               minNotional: real)
  {
    && price * (quantity as real * lot) < minNotional
    && !(!kind.Plain? && Signed(side, 1) * net < 0 && quantity >= Abs(net))
  }

  // Every check ahead of the rate cap, first refusal first. `quantity` is already on the lot grid.
  function Refusal(tripped: bool, kind: Kind, side: Side, quantity: int, price: Option<real>, lot: real,
                   reading: Reading, limits: Limits, now: int): Option<Reason> {
    var before := Before(side, reading.accountNet, reading.openRemainder);
    var worst := before + Signed(side, quantity);
    var ownBefore := Before(side, reading.strategyNet, reading.openRemainder);
    var skipsCaps := Shrinks(before, worst) || !kind.Plain?;
    var value := if limits.maxOrderValue.Some? && !skipsCaps
      then ValueCheck(side, quantity, price, lot, reading, limits, now) else None;
    if tripped && !kind.Flatten? then Some(Tripped)
    else if quantity <= 0 then Some(RoundsToZero)
    else if
      && price.Some?
      && MinNotionalRefuses(kind, side, quantity, price.value, lot, reading.accountNet, limits.minNotional)
    then Some(BelowMinNotional)
    else if kind.ReduceOnly? && !Shrinks(ownBefore, ownBefore + Signed(side, quantity)) then Some(WouldNotReduce)
    else if limits.maxOrderSize.Some? && quantity > limits.maxOrderSize.value && !skipsCaps then Some(AboveSize)
    else if value.Some? then value
    else if limits.maxPosition.Some? && Abs(worst) > limits.maxPosition.value && !skipsCaps then Some(AbovePosition)
    else None
  }

  /** What the caps leave alone: an order that shrinks the worst case, and a reduce-only or flatten
      order, is never refused for its size, its value or the position it would make. */
  lemma CapsSpareReductions(tripped: bool, kind: Kind, side: Side, quantity: int, price: Option<real>, lot: real,
                            reading: Reading, limits: Limits, now: int)
    requires var before := Before(side, reading.accountNet, reading.openRemainder);
      !kind.Plain? || Shrinks(before, before + Signed(side, quantity))
    ensures match Refusal(tripped, kind, side, quantity, price, lot, reading, limits, now)
            case None => true
            case Some(reason) =>
              reason.Tripped? || reason.RoundsToZero? || reason.BelowMinNotional? || reason.WouldNotReduce?
  {}

  /** The kill switch stops everything but the operator's exit; nothing else stops a sized market
      order to flatten. */
  lemma HaltSparesFlatten(kind: Kind, side: Side, quantity: int, price: Option<real>, lot: real,
                          reading: Reading, limits: Limits, now: int)
    ensures Refusal(true, kind, side, quantity, price, lot, reading, limits, now) == Some(Tripped) <==> !kind.Flatten?
    ensures quantity > 0 ==> Refusal(true, Flatten, side, quantity, None, lot, reading, limits, now).None?
  {}

  /** What an approval guarantees a plain order that grows the worst case: it fits the size, the value
      at a fresh price and the position caps, whichever are set. */
  lemma ApprovedFitsCaps(side: Side, quantity: int, price: Option<real>, lot: real, reading: Reading, limits: Limits,
                         now: int)
    requires var before := Before(side, reading.accountNet, reading.openRemainder);
      !Shrinks(before, before + Signed(side, quantity))
    ensures Refusal(false, Plain, side, quantity, price, lot, reading, limits, now).None? ==>
      && quantity > 0
      && (limits.maxOrderSize.Some? ==> quantity <= limits.maxOrderSize.value)
      && (limits.maxOrderValue.Some? ==> FitsValue(side, quantity, price, lot, reading, limits, now))
      && (limits.maxPosition.Some? ==>
            Abs(Before(side, reading.accountNet, reading.openRemainder) + Signed(side, quantity))
              <= limits.maxPosition.value)
  {
    hide MinNotionalRefuses, FitsValue;
    if limits.maxOrderValue.Some? {
      ValueCheckMeans(side, quantity, price, lot, reading, limits, now);
    }
  }

  // Within the value cap at a buy limit's own price, or else at the mark and at the order's own price,
  // with the mark fresh.
  predicate FitsValue(side: Side, quantity: int, price: Option<real>, lot: real, reading: Reading, limits: Limits,
                      now: int)
    requires limits.maxOrderValue.Some?
  {
    var size, cap := quantity as real * lot, limits.maxOrderValue.value;
    && (price.Some? && side.Buy? ==> size * price.value <= cap)
    && (price.None? || side.Sell? ==>
          && reading.mark.Some? && now - reading.mark.value.1 <= limits.markMaxAge
          && (price.None? ==> size * reading.mark.value.0 <= cap)
          && (price.Some? ==>
                size * (if price.value > reading.mark.value.0 then price.value else reading.mark.value.0) <= cap))
  }

  lemma ValueCheckMeans(side: Side, quantity: int, price: Option<real>, lot: real, reading: Reading, limits: Limits,
                        now: int)
    requires limits.maxOrderValue.Some?
    ensures ValueCheck(side, quantity, price, lot, reading, limits, now).None? <==>
      FitsValue(side, quantity, price, lot, reading, limits, now)
  {}

  // Past a cap that is set, and under the venue's minimum at a price of its own.
  predicate Exceeds(x: int, cap: Option<int>) {
    cap.Some? && x > cap.value
  }

  predicate TooSmall(price: Option<real>, size: real, minNotional: real) {
    price.Some? && price.value * size < minNotional
  }

  lemma MinNotionalMeans(kind: Kind, side: Side, quantity: int, price: Option<real>, lot: real, net: int,
                         minNotional: real)
    ensures price.Some? && MinNotionalRefuses(kind, side, quantity, price.value, lot, net, minNotional) <==>
      && TooSmall(price, quantity as real * lot, minNotional)
      && (kind == Plain || quantity < Abs(net) || if side.Buy? then net >= 0 else net <= 0)
  {}

  lemma ShrinksReads(before: int, after: int)
    ensures Shrinks(before, after) <==> if before >= 0 then 0 <= after < before else before < after <= 0
  {}

  // Toward zero and no further: what an order on `side` must do to an exposure of `from` to close it.
  predicate Closes(side: Side, from: int, quantity: int) {
    if side.Buy? then from < 0 < quantity <= -from else from > 0 && 0 < quantity <= from
  }

  lemma ClosesReads(side: Side, from: int, quantity: int)
    requires quantity > 0
    ensures Shrinks(from, from + Signed(side, quantity)) <==> Closes(side, from, quantity)
  {
    ShrinksReads(from, from + Signed(side, quantity));
  }

  /** Exactly which orders pass every check ahead of the rate cap. A limit order clears the venue's
      minimum or is the whole close it excuses; a reduce-only order closes the strategy's own worst
      case; and a plain order that does not close the account's fits every cap that is set. */
  lemma ApprovedIff(tripped: bool, kind: Kind, side: Side, quantity: int, price: Option<real>, lot: real,
                    reading: Reading, limits: Limits, now: int)
    ensures var open := if side.Buy? then reading.openRemainder as int else 0 - reading.openRemainder;
      var signed := if side.Buy? then quantity else 0 - quantity;
      var net, size := reading.accountNet, quantity as real * lot;
      Refusal(tripped, kind, side, quantity, price, lot, reading, limits, now).None? <==>
        && (tripped ==> kind == Flatten) && quantity > 0
        && (TooSmall(price, size, limits.minNotional) ==>
              kind != Plain && quantity >= Abs(net) && if side.Buy? then net < 0 else net > 0)
        && (kind == ReduceOnly ==> Closes(side, reading.strategyNet + open, quantity))
        && (kind == Plain && !Closes(side, net + open, quantity) ==>
              && !Exceeds(quantity, limits.maxOrderSize)
              && !Exceeds(Abs(net + open + signed), limits.maxPosition)
              && (limits.maxOrderValue.Some? ==>
                    FitsValue(side, quantity, price, lot, reading, limits, now)))
  {
    hide ValueCheck, MinNotionalRefuses, Shrinks, Closes, FitsValue, TooSmall;
    var open := if side.Buy? then reading.openRemainder as int else 0 - reading.openRemainder;
    if quantity > 0 {
      if limits.maxOrderValue.Some? {
        ValueCheckMeans(side, quantity, price, lot, reading, limits, now);
      }
      MinNotionalMeans(kind, side, quantity, price, lot, reading.accountNet, limits.minNotional);
      ClosesReads(side, reading.accountNet + open, quantity);
      ClosesReads(side, reading.strategyNet + open, quantity);
    }
  }

  /** And what a refusal says is so, with the checks ahead of it passed. */
  lemma RefusalTells(tripped: bool, kind: Kind, side: Side, quantity: int, price: Option<real>, lot: real,
                     reading: Reading, limits: Limits, now: int)
    ensures var open := if side.Buy? then reading.openRemainder as int else 0 - reading.openRemainder;
      var signed := if side.Buy? then quantity else 0 - quantity;
      var halted := tripped && kind != Flatten;
      match Refusal(tripped, kind, side, quantity, price, lot, reading, limits, now)
      case None => !halted && quantity > 0
      case Some(Tripped) => halted
      case Some(RoundsToZero) => !halted && quantity <= 0
      case Some(reason) =>
        && !halted && quantity > 0
        && (reason == BelowMinNotional ==> TooSmall(price, quantity as real * lot, limits.minNotional))
        && (reason == WouldNotReduce ==> kind == ReduceOnly && !Closes(side, reading.strategyNet + open, quantity))
        && (reason != BelowMinNotional && reason != WouldNotReduce ==>
              kind == Plain && !Closes(side, reading.accountNet + open, quantity))
        && (reason == AboveSize ==> Exceeds(quantity, limits.maxOrderSize))
        && (reason == AboveValue || reason == NoMark || reason == StaleMark || reason == AbovePosition ==>
              !Exceeds(quantity, limits.maxOrderSize))
        && (reason == NoMark ==> limits.maxOrderValue.Some? && reading.mark.None?)
        && (reason == StaleMark ==> Stale(reading.mark, limits.markMaxAge, now))
        && (reason == AbovePosition ==> Exceeds(Abs(reading.accountNet + open + signed), limits.maxPosition))
        && reason != AboveRate
  {
    hide MinNotionalRefuses, Shrinks, Closes, TooSmall;
    var open := if side.Buy? then reading.openRemainder as int else 0 - reading.openRemainder;
    if quantity > 0 {
      MinNotionalMeans(kind, side, quantity, price, lot, reading.accountNet, limits.minNotional);
      ClosesReads(side, reading.accountNet + open, quantity);
      ClosesReads(side, reading.strategyNet + open, quantity);
    }
  }

  predicate Stale(mark: Option<(real, int)>, maxAge: int, now: int) {
    mark.Some? && now - mark.value.1 > maxAge
  }

  // ----- The rate cap -----

  predicate Sorted(times: seq<int>) {
    forall i, j :: 0 <= i <= j < |times| ==> times[i] <= times[j]
  }

  // No window holds more than `rate.maxOrders` of the times.
  predicate Paced(times: seq<int>, rate: Rate) {
    forall i :: 0 <= i && i + rate.maxOrders < |times| ==> times[i + rate.maxOrders] - times[i] >= rate.window
  }

  // The last `rate.maxOrders` times all lie inside the window that ends at `now`.
  predicate TrailingFull(times: seq<int>, rate: Rate, now: int) {
    rate.maxOrders <= |times| && (rate.maxOrders == 0 || now - times[|times| - rate.maxOrders] < rate.window)
  }

  // `kept` is the end of the history, and all before it has left the window that ends at `now`.
  predicate Windowed(kept: seq<int>, history: seq<int>, rate: Rate, now: int) {
    && |kept| <= |history| && kept == history[|history| - |kept|..]
    && Sorted(history) && (history != [] ==> history[|history| - 1] <= now)
    && (forall i :: 0 <= i < |history| - |kept| ==> now - history[i] >= rate.window)
    && Paced(history, rate)
  }

  lemma WindowMoves(kept: seq<int>, history: seq<int>, rate: Rate, before: int, now: int)
    requires Windowed(kept, history, rate, before) && before <= now
    ensures Windowed(kept, history, rate, now)
  {
    hide Sorted, Paced;
  }

  lemma SlotLeaves(kept: seq<int>, history: seq<int>, rate: Rate, now: int)
    requires Windowed(kept, history, rate, now) && kept != [] && now - kept[0] >= rate.window
    ensures Windowed(kept[1..], history, rate, now)
  {
    hide Sorted, Paced;
    assert kept[0] == history[|history| - |kept|];
  }

  // With every expired slot gone, what is kept tells whether the trailing window is full.
  lemma KeptTells(kept: seq<int>, history: seq<int>, rate: Rate, now: int)
    requires Windowed(kept, history, rate, now) && rate.window > 0 && (kept != [] ==> now - kept[0] < rate.window)
    ensures |kept| < rate.maxOrders <==> !TrailingFull(history, rate, now)
  {
    if 0 < rate.maxOrders <= |history| {
      var k := |history| - rate.maxOrders;
      assert k >= |history| - |kept| ==>
        history[|history| - |kept|] == kept[0] && history[|history| - |kept|] <= history[k];
    }
  }

  lemma PacedReads(kept: seq<int>, history: seq<int>, rate: Rate, now: int)
    requires Windowed(kept, history, rate, now)
    ensures forall i :: 0 <= i && i + rate.maxOrders < |history| ==>
      history[i + rate.maxOrders] - history[i] >= rate.window
  {}

  lemma FullReads(times: seq<int>, rate: Rate, now: int)
    ensures !TrailingFull(times, rate, now) <==>
      |times| < rate.maxOrders || (rate.maxOrders > 0 && now - times[|times| - rate.maxOrders] >= rate.window)
  {}

  // Fewer than the cap inside the trailing window: one more keeps every window within it.
  lemma SlotTaken(kept: seq<int>, history: seq<int>, rate: Rate, now: int)
    requires Windowed(kept, history, rate, now) && |kept| < rate.maxOrders
    ensures Windowed(kept + [now], history + [now], rate, now)
  {}

  class RealGuard {
    const limits: Limits
    const lot: real
    var tripped: bool
    var approved: seq<int>
    // Every approval the rate cap ever counted.
    ghost var history: seq<int>

    ghost predicate Valid(now: int)
      reads this
    {
      limits.rate.Some? ==> limits.rate.value.window > 0 && Windowed(approved, history, limits.rate.value, now)
    }

    constructor (limits: Limits, lot: real, tripped: bool)
      ensures this.limits == limits && this.lot == lot && this.tripped == tripped && history == []
      ensures (limits.rate.Some? ==> limits.rate.value.window > 0) ==> forall now :: Valid(now)
    {
      this.limits, this.lot, this.tripped := limits, lot, tripped;
      approved, history := [], [];
    }

    // A flatten order paces itself, and without a rate cap nothing is counted.
    predicate Counted(kind: Kind) {
      limits.rate.Some? && !kind.Flatten?
    }

    /** The clock does not step back. The run of rate-counted approvals stays paced, and the rate cap
        denies exactly when the trailing window is full. */
    method Check(kind: Kind, side: Side, quantity: int, price: Option<real>, reading: Reading, now: int,
                 ghost before: int) returns (d: Decision)
      requires Valid(before) && before <= now
      modifies this`approved, this`history
      ensures Valid(now)
      ensures var refusal := Refusal(tripped, kind, side, quantity, price, lot, reading, limits, now);
        d == if refusal.Some? then Denied(refusal.value)
             else if limits.rate.Some? && !kind.Flatten? && TrailingFull(old(history), limits.rate.value, now)
             then Denied(AboveRate)
             else Approved
      ensures history ==
        if d.Approved? && limits.rate.Some? && !kind.Flatten? then old(history) + [now] else old(history)
    {
      hide Refusal, Windowed, TrailingFull;
      if limits.rate.Some? {
        WindowMoves(approved, history, limits.rate.value, before, now);
      }
      var refusal := Refusal(tripped, kind, side, quantity, price, lot, reading, limits, now);
      if refusal.Some? {
        return Denied(refusal.value);
      }
      if !Counted(kind) {
        return Approved;
      }
      var admitted := Admit(now, before);
      return if admitted then Approved else Denied(AboveRate);
    }

    // Drop the approvals the window has left behind, then take a slot if one is free.
    method Admit(now: int, ghost before: int) returns (admitted: bool)
      requires Valid(before) && before <= now && limits.rate.Some?
      modifies this`approved, this`history
      ensures Valid(now)
      ensures admitted <==> !TrailingFull(old(history), limits.rate.value, now)
      ensures var times, max := old(history), limits.rate.value.maxOrders;
        admitted <==> |times| < max || (max > 0 && now - times[|times| - max] >= limits.rate.value.window)
      ensures history == if admitted then old(history) + [now] else old(history)
      ensures var rate := limits.rate.value;
        forall i :: 0 <= i && i + rate.maxOrders < |history| ==> history[i + rate.maxOrders] - history[i] >= rate.window
    {
      hide Windowed, TrailingFull;
      var rate := limits.rate.value;
      WindowMoves(approved, history, rate, before, now);
      while approved != [] && now - approved[0] >= rate.window
        invariant history == old(history) && Windowed(approved, history, rate, now)
        decreases |approved|
      {
        SlotLeaves(approved, history, rate, now);
        approved := approved[1..];
      }
      KeptTells(approved, history, rate, now);
      FullReads(history, rate, now);
      admitted := |approved| < rate.maxOrders;
      if admitted {
        SlotTaken(approved, history, rate, now);
        approved, history := approved + [now], history + [now];
      }
      PacedReads(approved, history, rate, now);
    }
  }

  // ----- The position cap -----

  // One symbol: the account net, the unattributed partition's part of it, and what each open order
  // has left. A symbol's open orders are all its one strategy's.
  datatype Open = Open(side: Side, left: nat)
  datatype Book = Book(net: int, unattributed: int, orders: seq<Open>)

  function Left(orders: seq<Open>, side: Side): nat {
    if orders == [] then 0 else
      Left(orders[..|orders| - 1], side) + if orders[|orders| - 1].side == side then orders[|orders| - 1].left else 0
  }

  // What the guard reads before an order on `side`.
  function ReadingOf(b: Book, side: Side, mark: Option<(real, int)>): Reading {
    Reading(b.net, b.net - b.unattributed, Left(b.orders, side), mark)
  }

  // A guard-approved order, a fill of one within what it has left, or its end.
  datatype Event =
    | Place(kind: Kind, side: Side, quantity: int, price: Option<real>, mark: Option<(real, int)>, now: int)
    | Fill(order: nat, filled: nat)
    | End(order: nat)

  function Next(limits: Limits, lot: real, b: Book, ev: Event): Book {
    match ev
    case Place(kind, side, quantity, price, mark, now) =>
      if quantity > 0 && Refusal(false, kind, side, quantity, price, lot, ReadingOf(b, side, mark), limits, now).None?
      then b.(orders := b.orders + [Open(side, quantity)]) else b
    case Fill(i, quantity) =>
      if i < |b.orders| && quantity <= b.orders[i].left
      then b.(net := b.net + Signed(b.orders[i].side, quantity),
              orders := b.orders[i := b.orders[i].(left := b.orders[i].left - quantity)])
      else b
    case End(i) => if i < |b.orders| then b.(orders := b.orders[i := b.orders[i].(left := 0)]) else b
  }

  function Run(limits: Limits, lot: real, b: Book, events: seq<Event>): Book {
    if events == [] then b else Next(limits, lot, Run(limits, lot, b, events[..|events| - 1]), events[|events| - 1])
  }

  lemma RunSteps(limits: Limits, lot: real, b: Book, events: seq<Event>, ev: Event)
    ensures Run(limits, lot, b, events + [ev]) == Next(limits, lot, Run(limits, lot, b, events), ev)
    ensures Run(limits, lot, b, []) == b
  {
    assert (events + [ev])[..|events|] == events;
  }

  // However the open orders fill, the net stays inside the cap.
  predicate Inside(b: Book, cap: int) {
    b.net + Left(b.orders, Buy) <= cap && b.net - Left(b.orders, Sell) >= -cap
  }

  predicate StrategyOrders(events: seq<Event>) {
    forall i :: 0 <= i < |events| && events[i].Place? ==> !events[i].kind.Flatten?
  }

  predicate ReducesOnly(events: seq<Event>) {
    exists i :: 0 <= i < |events| && events[i].Place? && events[i].kind.ReduceOnly?
  }

  lemma {:induction false} LeftUpdate(orders: seq<Open>, i: nat, left: nat, side: Side)
    requires i < |orders|
    ensures Left(orders[i := orders[i].(left := left)], side)
         == Left(orders, side) + if orders[i].side == side then left - orders[i].left else 0
  {
    var after := orders[i := orders[i].(left := left)];
    if i < |orders| - 1 {
      LeftUpdate(orders[..|orders| - 1], i, left, side);
      assert after[..|orders| - 1] == orders[..|orders| - 1][i := orders[i].(left := left)];
    } else {
      assert after[..|orders| - 1] == orders[..|orders| - 1];
    }
  }

  lemma LeftAppend(orders: seq<Open>, order: Open, side: Side)
    ensures Left(orders + [order], side) == Left(orders, side) + if order.side == side then order.left else 0
  {
    assert (orders + [order])[..|orders|] == orders;
  }

  // `FlattenBreaksCap` is why a flatten order is left out: it skips every cap.
  lemma StepInside(limits: Limits, lot: real, b: Book, ev: Event)
    requires limits.maxPosition.Some? && Inside(b, limits.maxPosition.value)
    requires ev.Place? ==> !ev.kind.Flatten?
    requires ev.Place? && ev.kind.ReduceOnly? ==> Abs(b.unattributed) <= limits.maxPosition.value
    ensures Inside(Next(limits, lot, b, ev), limits.maxPosition.value)
    ensures Next(limits, lot, b, ev).unattributed == b.unattributed
  {
    hide Refusal, Left;
    match ev
    case Place(kind, side, quantity, price, mark, now) =>
      if quantity > 0 {
        ApprovedFits(limits, lot, b, kind, side, quantity, price, mark, now);
        LeftAppend(b.orders, Open(side, quantity), Buy);
        LeftAppend(b.orders, Open(side, quantity), Sell);
      }
    case Fill(i, quantity) =>
      if i < |b.orders| && quantity <= b.orders[i].left {
        LeftUpdate(b.orders, i, b.orders[i].left - quantity, Buy);
        LeftUpdate(b.orders, i, b.orders[i].left - quantity, Sell);
      }
    case End(i) =>
      if i < |b.orders| {
        LeftUpdate(b.orders, i, 0, Buy);
        LeftUpdate(b.orders, i, 0, Sell);
      }
  }

  // An approved strategy order fits the cap with every open order on its side filled.
  lemma ApprovedFits(limits: Limits, lot: real, b: Book, kind: Kind, side: Side, quantity: int, price: Option<real>,
                     mark: Option<(real, int)>, now: int)
    requires limits.maxPosition.Some? && Inside(b, limits.maxPosition.value) && quantity > 0 && !kind.Flatten?
    requires kind.ReduceOnly? ==> Abs(b.unattributed) <= limits.maxPosition.value
    ensures Refusal(false, kind, side, quantity, price, lot, ReadingOf(b, side, mark), limits, now).None? ==>
      if side.Buy? then b.net + Left(b.orders, Buy) + quantity <= limits.maxPosition.value
      else b.net - Left(b.orders, Sell) - quantity >= -limits.maxPosition.value
  {
    hide ValueCheck, MinNotionalRefuses, Left;
  }

  lemma {:induction false} RunInside(limits: Limits, lot: real, b: Book, events: seq<Event>)
    requires limits.maxPosition.Some? && Inside(b, limits.maxPosition.value)
    requires StrategyOrders(events) && (ReducesOnly(events) ==> Abs(b.unattributed) <= limits.maxPosition.value)
    ensures Inside(Run(limits, lot, b, events), limits.maxPosition.value)
    ensures Run(limits, lot, b, events).unattributed == b.unattributed
  {
    if events != [] {
      RunInside(limits, lot, b, events[..|events| - 1]);
      StepInside(limits, lot, Run(limits, lot, b, events[..|events| - 1]), events[|events| - 1]);
    }
  }

  /** The position cap over whole runs: through any interleaving of approved strategy orders, partial
      fills and ends, the net never leaves the cap, however the open orders go on to fill. Outside flow
      past the cap matters only to runs that place a reduce-only order. */
  lemma NetStaysInside(limits: Limits, lot: real, b: Book, events: seq<Event>)
    requires limits.maxPosition.Some? && Inside(b, limits.maxPosition.value)
    requires StrategyOrders(events) && (ReducesOnly(events) ==> Abs(b.unattributed) <= limits.maxPosition.value)
    ensures Abs(Run(limits, lot, b, events).net) <= limits.maxPosition.value
  {
    RunInside(limits, lot, b, events);
  }

  /** An approved order is open at its size, and what fills of it moves the net by as much. */
  lemma ApprovedTrades(limits: Limits, lot: real, b: Book, kind: Kind, side: Side, quantity: int, price: Option<real>,
                       mark: Option<(real, int)>, now: int, filled: nat)
    requires quantity > 0 && filled <= quantity
    requires Refusal(false, kind, side, quantity, price, lot, ReadingOf(b, side, mark), limits, now).None?
    ensures var open := Next(limits, lot, b, Place(kind, side, quantity, price, mark, now));
      var after := Next(limits, lot, open, Fill(|b.orders|, filled));
      && open.net == b.net && open.orders == b.orders + [Open(side, quantity)]
      && after.net == b.net + (if side.Buy? then filled else 0 - filled)
      && after.orders == b.orders + [Open(side, quantity - filled)]
      && Left(Next(limits, lot, after, End(|b.orders|)).orders, side) == Left(b.orders, side)
  {
    hide Refusal, Left;
    var open := Next(limits, lot, b, Place(kind, side, quantity, price, mark, now));
    LeftAppend(b.orders, Open(side, 0), side);
    var after := Next(limits, lot, open, Fill(|b.orders|, filled));
    assert after.orders == b.orders + [Open(side, quantity - filled)];
    assert Next(limits, lot, after, End(|b.orders|)).orders == b.orders + [Open(side, 0)];
  }

  function Bare(cap: int): Limits {
    Limits(0.0, None, None, Some(cap), 0, None)
  }

  function Closing(side: Side, quantity: int): Event {
    Place(ReduceOnly, side, quantity, None, None, 0)
  }

  // The strategy holds the opposite of the outside flow, so the account is flat; closing the strategy's
  // own side opens all of the outside flow on the account.
  lemma ReduceOnlyBreaks(cap: nat, unattributed: int)
    requires Abs(unattributed) > cap
    ensures var side := if unattributed > 0 then Buy else Sell; var b := Book(0, unattributed, []);
      Inside(b, cap) && !Inside(Next(Bare(cap), 1.0, b, Closing(side, Abs(unattributed))), cap)
  {
    hide Left, ValueCheck, MinNotionalRefuses;
    var order := Open(if unattributed > 0 then Buy else Sell, Abs(unattributed));
    LeftNone();
    LeftAppend([], order, Buy);
    LeftAppend([], order, Sell);
  }

  /** What a reduce-only order needs: the cap is kept from every state inside it exactly where the
      unattributed partition alone is inside it too. */
  lemma ReduceOnlyKeepsCapIff(cap: nat, unattributed: int)
    ensures Abs(unattributed) <= cap <==>
      forall net, orders, side, quantity :: Inside(Book(net, unattributed, orders), cap) ==>
        Inside(Next(Bare(cap), 1.0, Book(net, unattributed, orders), Closing(side, quantity)), cap)
  {
    hide Next, Inside;
    if Abs(unattributed) <= cap {
      forall net, orders, side, quantity | Inside(Book(net, unattributed, orders), cap)
        ensures Inside(Next(Bare(cap), 1.0, Book(net, unattributed, orders), Closing(side, quantity)), cap)
      {
        StepInside(Bare(cap), 1.0, Book(net, unattributed, orders), Closing(side, quantity));
      }
    } else {
      ReduceOnlyBreaks(cap, unattributed);
    }
  }

  lemma LeftNone()
    ensures Left([], Buy) == 0 && Left([], Sell) == 0
  {}

  // The side that trades against the net.
  function AgainstNet(net: int): Side {
    if net > 0 then Sell else Buy
  }

  /** What a flatten order needs: every flatten order the net admits keeps the worst case inside the
      cap exactly where the orders already open on its side are inside the cap by themselves. */
  lemma FlattenKeepsCapIff(limits: Limits, lot: real, b: Book, mark: Option<(real, int)>, now: int)
    requires limits.maxPosition.Some? && Inside(b, limits.maxPosition.value) && b.net != 0
    ensures var side := AgainstNet(b.net); var cap := limits.maxPosition.value;
      Left(b.orders, side) <= cap <==>
      forall q :: 0 < q <= Abs(b.net) ==> Inside(Next(limits, lot, b, Place(Flatten, side, q, None, mark, now)), cap)
  {
    hide Left, ValueCheck, MinNotionalRefuses;
    var side, cap := AgainstNet(b.net), limits.maxPosition.value;
    forall q | 0 < q <= Abs(b.net)
      ensures var after := Next(limits, lot, b, Place(Flatten, side, q, None, mark, now));
        && after.net == b.net
        && Left(after.orders, Buy) == Left(b.orders, Buy) + (if side.Buy? then q else 0)
        && Left(after.orders, Sell) == Left(b.orders, Sell) + (if side.Sell? then q else 0)
    {
      LeftAppend(b.orders, Open(side, q), Buy);
      LeftAppend(b.orders, Open(side, q), Sell);
    }
    if Left(b.orders, side) > cap {
      assert !Inside(Next(limits, lot, b, Place(Flatten, side, Abs(b.net), None, mark, now)), cap);
    }
  }

  // A flatten order skips every cap: with buys already open to the cap, closing a short goes past it.
  lemma FlattenBreaksCap()
    ensures var b := Book(-5, 0, [Open(Buy, 15)]);
      Inside(b, 10) && !Inside(Next(Bare(10), 1.0, b, Place(Flatten, Buy, 5, None, None, 0)), 10)
  {
    hide Left;
    var none: seq<Open> := [];
    LeftNone();
    assert none + [Open(Buy, 15)] == [Open(Buy, 15)];
    LeftAppend(none, Open(Buy, 15), Buy);
    LeftAppend(none, Open(Buy, 15), Sell);
    LeftAppend([Open(Buy, 15)], Open(Buy, 5), Buy);
  }
}
