// The computed liquidation price: the mark at which a position's backing falls to the maintenance
// owed on it. `None` throughout is a term still unknown, and a term a flat book does not need is
// never unknown.

module Liquidation {
  import opened Domain
  import opened Sums
  import opened Positions
  import opened Ledger

  datatype Mode = Isolated | Cross

  function SideOf(net: real): real {
    if net > 0.0 then 1.0 else -1.0
  }

  function RawPrice(net: real, mark: real, backing: real, maintenance: real, rate: real): real
    requires net != 0.0 && 1.0 - rate * SideOf(net) != 0.0
  {
    mark - SideOf(net) * (backing - maintenance) / AbsR(net) / (1.0 - rate * SideOf(net))
  }

  // The reported price. A rate the venue could quote leaves `1 - rate * side` positive.
  function Price(net: real, mark: Option<real>, backing: Option<real>, maintenance: Option<real>,
                 rate: Option<real>): Option<real>
    requires net != 0.0 && rate.Some? ==> 1.0 - rate.value * SideOf(net) != 0.0
  {
    if net == 0.0 then None
    else if mark.None? || backing.None? || maintenance.None? || rate.None? then None
    else
      var price := RawPrice(net, mark.value, backing.value, maintenance.value, rate.value);
      if price > 0.0 then Some(price) else None
  }

  // ----- The straight line both sides of the equation run along -----

  // What is left of the backing over the maintenance when the symbol alone is re-marked to `x`.
  function Cushion(net: real, mark: real, backing: real, maintenance: real, rate: real, x: real): real {
    backing - maintenance + Slope(net, rate, x - mark)
  }

  function Slope(net: real, rate: real, d: real): real {
    SideOf(net) * (AbsR(net) * (1.0 - rate * SideOf(net)) * d)
  }

  // How the maintenance on a net moves with the mark.
  function OwedBy(net: real, rate: real, d: real): real {
    AbsR(net) * rate * d
  }

  lemma SlopeReads(net: real, rate: real, d: real)
    ensures Slope(net, rate, d) == Times(net, d) - OwedBy(net, rate, d)
  {
    if net > 0.0 {
      assert AbsR(net) * (1.0 - rate) == net - net * rate;
    } else {
      assert AbsR(net) * (1.0 + rate) == AbsR(net) + AbsR(net) * rate;
    }
  }

  lemma DivTwice(a: real, n: real, k: real)
    requires n > 0.0 && k > 0.0
    ensures n * k * (a / n / k) == a
  {
    assert k * (a / n / k) == a / n;
    assert n * (a / n) == a;
    assert n * k * (a / n / k) == n * (k * (a / n / k));
  }

  lemma MulCancelR(k: real, a: real, b: real)
    requires k > 0.0
    ensures k * a == k * b <==> a == b
  {
    if a < b {
      assert k * (b - a) > 0.0;
    } else if b < a {
      assert k * (a - b) > 0.0;
    }
  }

  // The cushion is zero at exactly one mark: the raw price.
  lemma OneLevel(net: real, mark: real, backing: real, maintenance: real, rate: real, x: real)
    requires net != 0.0 && 1.0 - rate * SideOf(net) > 0.0
    ensures Cushion(net, mark, backing, maintenance, rate, x) == 0.0 <==>
      x == RawPrice(net, mark, backing, maintenance, rate)
  {
    var side, n, k := SideOf(net), AbsR(net), 1.0 - rate * SideOf(net);
    var free := backing - maintenance;
    var at := RawPrice(net, mark, backing, maintenance, rate);
    DivTwice(side * free, n, k);
    assert n * k * (mark - at) == side * free;
    assert n * k > 0.0;
    MulCancelR(n * k, x - mark, at - mark);
    assert n * k * (at - mark) == -(n * k * (mark - at));
    assert side * (side * free) == free;
  }

  // ----- The terms, over the ledger -----

  type MarkMap = map<Symbol, real>

  // A missing mark only ever meets a flat size where a figure is known.
  function MarkOf(marks: MarkMap): Marks {
    s => if s in marks then marks[s] else 0.0
  }

  ghost predicate NeedsMark(l: Ledger, s: Symbol) {
    exists k :: k in l.positions && k.symbol == s && l.positions[k].size != 0.0
  }

  function OpenOn(s: Symbol, mark: real): (Key, Pos) -> real {
    (k: Key, p: Pos) => if k.symbol == s then UnrealizedPnl(p, mark) else 0.0
  }

  ghost function SymbolUpnl(l: Ledger, s: Symbol, marks: MarkMap): Option<real> {
    if NeedsMark(l, s) && s !in marks then None else Some(SumMap(l.positions, OpenOn(s, MarkOf(marks)(s))))
  }

  function Exposure(net: real, mark: real): real {
    AbsR(net) * mark
  }

  ghost function SymbolNotional(l: Ledger, s: Symbol, marks: MarkMap): Option<real> {
    if AccountNet(l, s) == 0.0 then Some(0.0)
    else if s !in marks then None
    else Some(Exposure(AccountNet(l, s), marks[s]))
  }

  function Maintenance(notional: Option<real>, rate: Option<real>): Option<real> {
    if notional.Some? && notional.value == 0.0 then Some(0.0)
    else if notional.None? || rate.None? then None
    else Some(notional.value * rate.value)
  }

  function Rate(rates: map<Symbol, real>, s: Symbol): Option<real> {
    if s in rates then Some(rates[s]) else None
  }

  ghost function SymbolMaintenance(l: Ledger, s: Symbol, marks: MarkMap, rates: map<Symbol, real>): Option<real> {
    Maintenance(SymbolNotional(l, s, marks), Rate(rates, s))
  }

  function Plus(a: Option<real>, b: Option<real>): Option<real> {
    if a.None? || b.None? then None else Some(a.value + b.value)
  }

  // One unknown term makes the total unknown.
  ghost function AccountMaintenance(l: Ledger, marks: MarkMap, rates: map<Symbol, real>,
                                    symbols: seq<Symbol>): Option<real>
  {
    if symbols == [] then Some(0.0) else
      Plus(SymbolMaintenance(l, symbols[0], marks, rates), AccountMaintenance(l, marks, rates, symbols[1..]))
  }

  ghost function AccountEquity(l: Ledger, marks: MarkMap): Option<real> {
    if forall s :: NeedsMark(l, s) ==> s in marks then Some(Equity(l, MarkOf(marks))) else None
  }

  // What stands behind the position: its own collateral and open PnL, or the account's equity.
  ghost function Backing(l: Ledger, mode: Mode, s: Symbol, bucket: Option<real>, marks: MarkMap): Option<real> {
    match mode
    case Isolated => Plus(bucket, SymbolUpnl(l, s, marks))
    case Cross => AccountEquity(l, marks)
  }

  // The maintenance owed on the pool the backing is drawn from.
  ghost function Owed(l: Ledger, mode: Mode, s: Symbol, marks: MarkMap, rates: map<Symbol, real>,
                      symbols: seq<Symbol>): Option<real>
  {
    match mode
    case Isolated => SymbolMaintenance(l, s, marks, rates)
    case Cross => AccountMaintenance(l, marks, rates, symbols)
  }

  ghost function LiquidationPrice(l: Ledger, mode: Mode, s: Symbol, bucket: Option<real>, marks: MarkMap,
                                  rates: map<Symbol, real>, symbols: seq<Symbol>): Option<real>
    requires s in rates && AccountNet(l, s) != 0.0 ==> 1.0 - rates[s] * SideOf(AccountNet(l, s)) != 0.0
  {
    Price(AccountNet(l, s), if s in marks then Some(marks[s]) else None,
      Backing(l, mode, s, bucket, marks), Owed(l, mode, s, marks, rates, symbols), Rate(rates, s))
  }

  // ----- Re-marking one symbol -----

  function Moved(s: Symbol, d: real): (Key, Pos) -> real {
    (k: Key, p: Pos) => if k.symbol == s then Times(p.size, d) else 0.0
  }

  lemma MovesBy(p: Pos, mark: real, x: real)
    ensures UnrealizedPnl(p, x) == UnrealizedPnl(p, mark) + Times(p.size, x - mark)
  {
    assert p.size * (x - p.entry) == p.size * ((mark - p.entry) + (x - mark));
  }

  lemma EquityReMarks(l: Ledger, s: Symbol, marks: MarkMap, x: real)
    requires s in marks
    ensures Equity(l, MarkOf(marks[s := x])) == Equity(l, MarkOf(marks)) + Times(AccountNet(l, s), x - marks[s])
  {
    hide Times, UnrealizedPnl;
    var d := x - marks[s];
    forall k | k in l.positions
      ensures OpenPnl(MarkOf(marks[s := x]))(k, l.positions[k])
        == OpenPnl(MarkOf(marks))(k, l.positions[k]) + Moved(s, d)(k, l.positions[k])
    {
      var p := l.positions[k];
      if k.symbol == s {
        MovesBy(p, marks[s], x);
      }
    }
    TimesAdds(0.0, 0.0, d);
    SumMapAdd(l.positions, OpenPnl(MarkOf(marks)), Moved(s, d), OpenPnl(MarkOf(marks[s := x])));
    SumMapScale(l.positions, SizeOn(s), Moved(s, d), d);
  }

  lemma UpnlReMarks(l: Ledger, s: Symbol, mark: real, x: real)
    ensures SumMap(l.positions, OpenOn(s, x))
      == SumMap(l.positions, OpenOn(s, mark)) + Times(AccountNet(l, s), x - mark)
  {
    hide Times, UnrealizedPnl;
    var d := x - mark;
    forall k | k in l.positions
      ensures OpenOn(s, x)(k, l.positions[k]) == OpenOn(s, mark)(k, l.positions[k]) + Moved(s, d)(k, l.positions[k])
    {
      var p := l.positions[k];
      if k.symbol == s {
        MovesBy(p, mark, x);
      }
    }
    TimesAdds(0.0, 0.0, d);
    SumMapAdd(l.positions, OpenOn(s, mark), Moved(s, d), OpenOn(s, x));
    SumMapScale(l.positions, SizeOn(s), Moved(s, d), d);
  }

  lemma BackingReMarks(l: Ledger, mode: Mode, s: Symbol, bucket: Option<real>, marks: MarkMap, x: real)
    requires s in marks && Backing(l, mode, s, bucket, marks).Some?
    ensures Backing(l, mode, s, bucket, marks[s := x])
         == Some(Backing(l, mode, s, bucket, marks).value + Times(AccountNet(l, s), x - marks[s]))
  {
    hide Equity, AccountNet, Times;
    match mode
    case Isolated => UpnlReMarks(l, s, marks[s], x);
    case Cross =>
      EquityReMarks(l, s, marks, x);
      assert forall t :: t in marks[s := x] <==> t in marks;
  }

  lemma OwnReMarks(l: Ledger, s: Symbol, marks: MarkMap, rates: map<Symbol, real>, x: real)
    requires s in marks && s in rates && AccountNet(l, s) != 0.0
    ensures SymbolMaintenance(l, s, marks, rates).Some? && SymbolMaintenance(l, s, marks[s := x], rates).Some?
    ensures SymbolMaintenance(l, s, marks[s := x], rates).value
         == SymbolMaintenance(l, s, marks, rates).value + OwedBy(AccountNet(l, s), rates[s], x - marks[s])
  {
    hide AccountNet, Maintenance;
    var n, rate := AbsR(AccountNet(l, s)), rates[s];
    NotionalOwes(SymbolNotional(l, s, marks), Rate(rates, s));
    NotionalOwes(SymbolNotional(l, s, marks[s := x]), Rate(rates, s));
    OwedMoves(AccountNet(l, s), marks[s], x, rate);
  }

  lemma NotionalOwes(notional: Option<real>, rate: Option<real>)
    requires notional.Some? && rate.Some?
    ensures Maintenance(notional, rate).Some? && Maintenance(notional, rate).value == notional.value * rate.value
  {}

  lemma OwedMoves(net: real, mark: real, x: real, rate: real)
    ensures AbsR(net) * x * rate == AbsR(net) * mark * rate + OwedBy(net, rate, x - mark)
  {
    var n := AbsR(net);
    assert n * x * rate == n * rate * x && n * mark * rate == n * rate * mark;
    assert n * rate * (x - mark) == n * rate * x - n * rate * mark;
  }

  lemma OtherKeeps(l: Ledger, t: Symbol, s: Symbol, marks: MarkMap, x: real)
    requires t != s
    ensures SymbolNotional(l, t, marks[s := x]) == SymbolNotional(l, t, marks)
  {
    hide AccountNet, Exposure;
  }

  lemma {:induction false} OwedReMarks(l: Ledger, s: Symbol, marks: MarkMap, rates: map<Symbol, real>,
                                       symbols: seq<Symbol>, x: real)
    requires s in marks && s in rates && AccountNet(l, s) != 0.0 && Distinct(symbols)
    requires AccountMaintenance(l, marks, rates, symbols).Some?
    ensures AccountMaintenance(l, marks[s := x], rates, symbols).Some?
    ensures AccountMaintenance(l, marks[s := x], rates, symbols).value
         == AccountMaintenance(l, marks, rates, symbols).value
          + if s in symbols then OwedBy(AccountNet(l, s), rates[s], x - marks[s]) else 0.0
  {
    hide AccountNet, Maintenance, OwedBy, SymbolNotional;
    if symbols != [] {
      OwedReMarks(l, s, marks, rates, symbols[1..], x);
      if symbols[0] == s {
        OwnReMarks(l, s, marks, rates, x);
      } else {
        OtherKeeps(l, symbols[0], s, marks, x);
      }
    }
  }

  // Everything the price needs is known.
  ghost predicate Known(l: Ledger, mode: Mode, s: Symbol, bucket: Option<real>, marks: MarkMap,
                        rates: map<Symbol, real>, symbols: seq<Symbol>)
  {
    && s in marks && s in rates && AccountNet(l, s) != 0.0 && 1.0 - rates[s] * SideOf(AccountNet(l, s)) > 0.0
    && Distinct(symbols) && s in symbols
    && Backing(l, mode, s, bucket, marks).Some? && Owed(l, mode, s, marks, rates, symbols).Some?
  }

  // The cushion at every re-marking of the symbol alone.
  lemma CushionReMarks(l: Ledger, mode: Mode, s: Symbol, bucket: Option<real>, marks: MarkMap, rates: map<Symbol, real>,
                       symbols: seq<Symbol>, x: real)
    requires Known(l, mode, s, bucket, marks, rates, symbols)
    ensures Known(l, mode, s, bucket, marks[s := x], rates, symbols)
    ensures var b := Backing(l, mode, s, bucket, marks).value; var m := Owed(l, mode, s, marks, rates, symbols).value;
      Backing(l, mode, s, bucket, marks[s := x]).value - Owed(l, mode, s, marks[s := x], rates, symbols).value
        == Cushion(AccountNet(l, s), marks[s], b, m, rates[s], x)
  {
    hide AccountNet, Backing, SymbolMaintenance, AccountMaintenance, Times, OwedBy, Slope;
    BackingReMarks(l, mode, s, bucket, marks, x);
    SlopeReads(AccountNet(l, s), rates[s], x - marks[s]);
    match mode
    case Isolated => OwnReMarks(l, s, marks, rates, x);
    case Cross => OwedReMarks(l, s, marks, rates, symbols, x);
  }

  ghost function Raw(l: Ledger, mode: Mode, s: Symbol, bucket: Option<real>, marks: MarkMap,
                     rates: map<Symbol, real>, symbols: seq<Symbol>): real
    requires Known(l, mode, s, bucket, marks, rates, symbols)
  {
    RawPrice(AccountNet(l, s), marks[s], Backing(l, mode, s, bucket, marks).value,
      Owed(l, mode, s, marks, rates, symbols).value, rates[s])
  }

  /** The liquidation price is the one level at which the backing equals the maintenance when its
      symbol alone is re-marked there, for longs and shorts, isolated and cross. */
  lemma LevelIsUnique(l: Ledger, mode: Mode, s: Symbol, bucket: Option<real>, marks: MarkMap, rates: map<Symbol, real>,
                      symbols: seq<Symbol>, x: real)
    requires Known(l, mode, s, bucket, marks, rates, symbols)
    ensures Known(l, mode, s, bucket, marks[s := x], rates, symbols)
    ensures Backing(l, mode, s, bucket, marks[s := x]) == Owed(l, mode, s, marks[s := x], rates, symbols)
       <==> x == Raw(l, mode, s, bucket, marks, rates, symbols)
  {
    hide AccountNet, Backing, Owed, RawPrice, Cushion;
    CushionReMarks(l, mode, s, bucket, marks, rates, symbols, x);
    OneLevel(AccountNet(l, s), marks[s], Backing(l, mode, s, bucket, marks).value,
      Owed(l, mode, s, marks, rates, symbols).value, rates[s], x);
  }

  // A symbol's size times the distance from entry to `x`, over its partitions.
  function PnlAt(s: Symbol, x: real): (Key, Pos) -> real {
    (k: Key, p: Pos) => if k.symbol == s then p.size * (x - p.entry) else 0.0
  }

  function OwedAt(net: real, mark: real, rate: real): real {
    AbsR(net) * mark * rate
  }

  // What the symbols of a cross account owe, the symbol itself marked to `x`.
  ghost function OwedOver(l: Ledger, s: Symbol, x: real, marks: MarkMap, rates: map<Symbol, real>,
                          symbols: seq<Symbol>): real
  {
    if symbols == [] then 0.0 else
      var t, rest := symbols[0], OwedOver(l, s, x, marks, rates, symbols[1..]);
      var mark := if t == s then x else if t in marks then marks[t] else 0.0;
      rest + OwedAt(AccountNet(l, t), mark, if t in rates then rates[t] else 0.0)
  }

  /** The level on a bucket, term by term: where a price is reported, the collateral and the symbol's PnL
      from its entries to that price are exactly its rate of the notional there. */
  lemma IsolatedLevel(l: Ledger, s: Symbol, bucket: real, marks: MarkMap, rates: map<Symbol, real>,
                      symbols: seq<Symbol>)
    requires Known(l, Isolated, s, Some(bucket), marks, rates, symbols)
    ensures var price := LiquidationPrice(l, Isolated, s, Some(bucket), marks, rates, symbols);
      price.Some? ==>
        && price.value > 0.0
        && bucket + SumMap(l.positions, PnlAt(s, price.value)) == AbsR(AccountNet(l, s)) * price.value * rates[s]
  {
    hide AccountNet, RawPrice;
    var price := LiquidationPrice(l, Isolated, s, Some(bucket), marks, rates, symbols);
    if price.Some? {
      LevelIsUnique(l, Isolated, s, Some(bucket), marks, rates, symbols, price.value);
      PnlReads(l, s, price.value);
    }
  }

  /** And on the account: its equity with the symbol at that price is what all its symbols owe there. */
  lemma CrossLevel(l: Ledger, s: Symbol, bucket: Option<real>, marks: MarkMap, rates: map<Symbol, real>,
                   symbols: seq<Symbol>)
    requires Known(l, Cross, s, bucket, marks, rates, symbols)
    ensures var price := LiquidationPrice(l, Cross, s, bucket, marks, rates, symbols);
      price.Some? ==>
        && price.value > 0.0
        && Equity(l, t => if t == s then price.value else if t in marks then marks[t] else 0.0)
           == OwedOver(l, s, price.value, marks, rates, symbols)
  {
    hide AccountNet, RawPrice, Equity;
    var price := LiquidationPrice(l, Cross, s, bucket, marks, rates, symbols);
    if price.Some? {
      var x := price.value;
      LevelIsUnique(l, Cross, s, bucket, marks, rates, symbols, x);
      OwedReads(l, s, x, marks, rates, symbols);
      SameEquity(l, MarkOf(marks[s := x]), t => if t == s then x else if t in marks then marks[t] else 0.0);
    }
  }

  lemma PnlReads(l: Ledger, s: Symbol, x: real)
    ensures SumMap(l.positions, OpenOn(s, x)) == SumMap(l.positions, PnlAt(s, x))
  {
    forall k | k in l.positions ensures OpenOn(s, x)(k, l.positions[k]) == PnlAt(s, x)(k, l.positions[k]) {
      var p := l.positions[k];
      assert UnrealizedPnl(p, x) == p.size * (x - p.entry);
    }
    SumMapCong(l.positions, OpenOn(s, x), l.positions, PnlAt(s, x));
  }

  lemma SameEquity(l: Ledger, a: Marks, b: Marks)
    requires forall s :: a(s) == b(s)
    ensures Equity(l, a) == Equity(l, b)
  {
    hide UnrealizedPnl;
    forall k | k in l.positions ensures OpenPnl(a)(k, l.positions[k]) == OpenPnl(b)(k, l.positions[k]) {
      assert a(k.symbol) == b(k.symbol);
    }
    SumMapCong(l.positions, OpenPnl(a), l.positions, OpenPnl(b));
  }

  lemma {:induction false} OwedReads(l: Ledger, s: Symbol, x: real, marks: MarkMap, rates: map<Symbol, real>,
                                     symbols: seq<Symbol>)
    ensures var owed := AccountMaintenance(l, marks[s := x], rates, symbols);
      owed.Some? ==> owed.value == OwedOver(l, s, x, marks, rates, symbols)
  {
    hide AccountNet, SymbolMaintenance, OwedAt;
    if symbols != [] {
      OwedReads(l, s, x, marks, rates, symbols[1..]);
      OneOwes(l, symbols[0], s, x, marks, rates);
    }
  }

  lemma OneOwes(l: Ledger, t: Symbol, s: Symbol, x: real, marks: MarkMap, rates: map<Symbol, real>)
    ensures var owed := SymbolMaintenance(l, t, marks[s := x], rates);
      var mark := if t == s then x else if t in marks then marks[t] else 0.0;
      owed.Some? ==> owed.value == OwedAt(AccountNet(l, t), mark, if t in rates then rates[t] else 0.0)
  {
    hide AccountNet;
  }

  // What has to be known, and no more: on a bucket the bucket and the symbol's own mark and rate, on the
  // account a mark for every exposed symbol and a rate for every one with a net.
  lemma KnownFrom(l: Ledger, mode: Mode, s: Symbol, bucket: Option<real>, marks: MarkMap, rates: map<Symbol, real>,
                  symbols: seq<Symbol>)
    requires AccountNet(l, s) != 0.0 && s in marks && s in rates && Distinct(symbols) && s in symbols
    requires if AccountNet(l, s) > 0.0 then rates[s] < 1.0 else rates[s] > -1.0
    requires mode == Isolated ==> bucket.Some?
    requires mode == Cross ==>
      && (forall k :: k in l.positions && l.positions[k].size != 0.0 ==> k.symbol in marks)
      && (forall t :: t in symbols && AccountNet(l, t) != 0.0 ==> t in marks && t in rates)
    ensures Known(l, mode, s, bucket, marks, rates, symbols)
  {
    hide AccountNet, Equity, SymbolMaintenance;
    forall t | t in symbols && (AccountNet(l, t) != 0.0 ==> t in marks && t in rates)
      ensures SymbolMaintenance(l, t, marks, rates).Some?
    {
      OneKnown(l, t, marks, rates);
    }
    if mode == Cross {
      AllKnown(l, marks, rates, symbols);
    }
  }

  lemma OneKnown(l: Ledger, t: Symbol, marks: MarkMap, rates: map<Symbol, real>)
    requires AccountNet(l, t) != 0.0 ==> t in marks && t in rates
    ensures SymbolMaintenance(l, t, marks, rates).Some?
  {
    hide AccountNet;
  }

  lemma {:induction false} AllKnown(l: Ledger, marks: MarkMap, rates: map<Symbol, real>, symbols: seq<Symbol>)
    requires forall t :: t in symbols ==> SymbolMaintenance(l, t, marks, rates).Some?
    ensures AccountMaintenance(l, marks, rates, symbols).Some?
  {
    hide SymbolMaintenance;
    if symbols != [] {
      AllKnown(l, marks, rates, symbols[1..]);
    }
  }

  // Nothing is priced on a guess: a position with no net, mark or rate, a bucket not known, or on the
  // account an exposed symbol without a mark, has no price.
  lemma NothingGuessed(l: Ledger, mode: Mode, s: Symbol, bucket: Option<real>, marks: MarkMap, rates: map<Symbol, real>,
                       symbols: seq<Symbol>)
    requires s in rates && AccountNet(l, s) != 0.0 ==> 1.0 - rates[s] * SideOf(AccountNet(l, s)) != 0.0
    ensures LiquidationPrice(l, mode, s, bucket, marks, rates, symbols).Some? ==>
      && AccountNet(l, s) != 0.0 && s in marks && s in rates
      && (mode == Isolated ==> bucket.Some?)
      && (mode == Cross ==> forall k :: k in l.positions && l.positions[k].size != 0.0 ==> k.symbol in marks)
  {
    hide AccountNet, Equity, RawPrice, Maintenance, AccountMaintenance;
    if mode == Cross && AccountEquity(l, marks).Some? {
      forall k | k in l.positions && l.positions[k].size != 0.0 ensures k.symbol in marks {
        assert NeedsMark(l, k.symbol);
      }
    }
  }

  /** A level and not a reading: the current mark of the symbol does not move it. */
  lemma LevelIgnoresMark(l: Ledger, mode: Mode, s: Symbol, bucket: Option<real>, marks: MarkMap,
                         rates: map<Symbol, real>, symbols: seq<Symbol>, y: real)
    requires Known(l, mode, s, bucket, marks, rates, symbols)
    ensures Known(l, mode, s, bucket, marks[s := y], rates, symbols)
    ensures LiquidationPrice(l, mode, s, bucket, marks[s := y], rates, symbols)
      == LiquidationPrice(l, mode, s, bucket, marks, rates, symbols)
  {
    hide AccountNet, Backing, Owed, RawPrice;
    var x := Raw(l, mode, s, bucket, marks, rates, symbols);
    LevelIsUnique(l, mode, s, bucket, marks, rates, symbols, x);
    LevelIsUnique(l, mode, s, bucket, marks, rates, symbols, y);
    LevelIsUnique(l, mode, s, bucket, marks[s := y], rates, symbols, x);
    assert marks[s := y][s := x] == marks[s := x];
  }

  /** When there is a price to report: a long has one exactly where its backing does not cover what is
      owed at a mark of zero, a short exactly where it does. */
  lemma ReportedIff(l: Ledger, mode: Mode, s: Symbol, bucket: Option<real>, marks: MarkMap, rates: map<Symbol, real>,
                    symbols: seq<Symbol>)
    requires Known(l, mode, s, bucket, marks, rates, symbols)
    ensures Known(l, mode, s, bucket, marks[s := 0.0], rates, symbols)
    ensures var zero := marks[s := 0.0];
      var atZero := Backing(l, mode, s, bucket, zero).value - Owed(l, mode, s, zero, rates, symbols).value;
      LiquidationPrice(l, mode, s, bucket, marks, rates, symbols).Some? <==>
        (if AccountNet(l, s) > 0.0 then atZero < 0.0 else atZero > 0.0)
  {
    hide AccountNet, Backing, Owed, Cushion, RawPrice;
    CushionReMarks(l, mode, s, bucket, marks, rates, symbols, 0.0);
    ZeroSide(AccountNet(l, s), marks[s], Backing(l, mode, s, bucket, marks).value,
      Owed(l, mode, s, marks, rates, symbols).value, rates[s]);
  }

  lemma ZeroSide(net: real, mark: real, backing: real, maintenance: real, rate: real)
    requires net != 0.0 && 1.0 - rate * SideOf(net) > 0.0
    ensures RawPrice(net, mark, backing, maintenance, rate) > 0.0 <==>
      (if net > 0.0 then Cushion(net, mark, backing, maintenance, rate, 0.0) < 0.0
       else Cushion(net, mark, backing, maintenance, rate, 0.0) > 0.0)
  {
    hide RawPrice;
    var at := RawPrice(net, mark, backing, maintenance, rate);
    OneLevel(net, mark, backing, maintenance, rate, at);
    var n, k := AbsR(net), 1.0 - rate * SideOf(net);
    var slope := n * k;
    assert slope > 0.0;
    assert slope * (0.0 - mark) == slope * (at - mark) - slope * at;
    if at > 0.0 {
      assert slope * at > 0.0;
    } else {
      assert slope * -at >= 0.0;
      assert slope * -at == -(slope * at);
    }
  }

  /** A short on its own bucket always has a price, as long as the bucket is not negative and its
      symbol was sold at a positive average. */
  lemma IsolatedShortHasPrice(l: Ledger, s: Symbol, bucket: real, marks: MarkMap, rates: map<Symbol, real>,
                              symbols: seq<Symbol>)
    requires Known(l, Isolated, s, Some(bucket), marks, rates, symbols) && AccountNet(l, s) < 0.0
    requires bucket >= 0.0 && SumMap(l.positions, OpenOn(s, 0.0)) > 0.0
    ensures LiquidationPrice(l, Isolated, s, Some(bucket), marks, rates, symbols).Some?
  {
    hide AccountNet;
    ReportedIff(l, Isolated, s, Some(bucket), marks, rates, symbols);
  }

  lemma OneSymbolOwes(l: Ledger, s: Symbol, marks: MarkMap, rates: map<Symbol, real>)
    ensures AccountMaintenance(l, marks, rates, [s]) == SymbolMaintenance(l, s, marks, rates)
  {
    hide AccountNet, SymbolMaintenance;
    assert [s][1..] == [] && AccountMaintenance(l, marks, rates, [s][1..]) == Some(0.0);
  }

  /** A cross short on its own symbol's account has a price exactly where the account's net cash is
      positive: at a mark of zero that is all the backing there is. */
  lemma CrossShortPricedIff(l: Ledger, s: Symbol, marks: MarkMap, rates: map<Symbol, real>)
    requires Known(l, Cross, s, None, marks, rates, [s]) && AccountNet(l, s) < 0.0
    requires forall k :: k in l.positions ==> k.symbol == s
    ensures LiquidationPrice(l, Cross, s, None, marks, rates, [s]).Some? <==> NetCash(l) > 0.0
  {
    hide AccountNet;
    ReportedIff(l, Cross, s, None, marks, rates, [s]);
    var zero := marks[s := 0.0];
    SumMapAdd(l.positions, OpenPnl(MarkOf(zero)), Cost, (k, p) => 0.0);
    SumMapZero(l.positions, (k: Key, p: Pos) => 0.0);
    OneSymbolOwes(l, s, zero, rates);
  }

  // A short of one sold at 100, on an account 200 in debt: no positive mark restores it.
  lemma CrossShortCanHaveNone(s: Symbol)
    ensures var l := Ledger(-200.0, map[Key(Strategy("a"), s) := Pos(-1.0, 100.0, 0.0, 0.0, 0.0)]);
      var marks, rates := map[s := 100.0], map[s := 0.05];
      && AccountNet(l, s) == -1.0 && Known(l, Cross, s, None, marks, rates, [s])
      && LiquidationPrice(l, Cross, s, None, marks, rates, [s]).None?
  {
    var key, p := Key(Strategy("a"), s), Pos(-1.0, 100.0, 0.0, 0.0, 0.0);
    var l := Ledger(-200.0, map[key := p]);
    OneEntry(key, p, SizeOn(s));
    OneEntry(key, p, Cost);
    assert l.positions[key].size != 0.0;
    OneSymbolOwes(l, s, map[s := 100.0], map[s := 0.05]);
    CrossShortPricedIff(l, s, map[s := 100.0], map[s := 0.05]);
  }

  lemma OneEntry(key: Key, p: Pos, f: (Key, Pos) -> real)
    ensures SumMap(map[key := p], f) == f(key, p)
  {
    SumMapRemove(map[key := p], f, key);
    assert map[key := p] - {key} == map[];
  }
}
