// The account ledger: every partition and one cash line, moved by fills, split pieces, funding
// and leftover moves. Net cash (cash less the cost basis of every partition) is what each of them
// conserves or moves by a stated amount.

module Ledger {
  import opened Domain
  import opened Sums
  import opened Positions

  datatype Ledger = Ledger(cash: real, positions: map<Key, Pos>)
  datatype Fill = Fill(key: Key, signed: real, price: real, fee: real)
  type Marks = Symbol -> real

  function At(l: Ledger, key: Key): Pos {
    if key in l.positions then l.positions[key] else FRESH
  }

  // A fill moves its partition and accrues what that realized, less the fee, onto cash.
  function BookFill(l: Ledger, f: Fill): Ledger {
    var p := At(l, f.key);
    var q := BookPos(p.(fees := p.fees + f.fee), f.signed, f.price);
    Ledger(l.cash + (q.realized - p.realized) - (q.fees - p.fees), l.positions[f.key := q])
  }

  function BookAll(l: Ledger, fills: seq<Fill>): Ledger
    decreases fills
  {
    if fills == [] then l else BookAll(BookFill(l, fills[0]), fills[1..])
  }

  // ----- Account-grain readings -----

  function Cost(k: Key, p: Pos): real {
    Basis(p)
  }

  function SizeOn(s: Symbol): (Key, Pos) -> real {
    (k: Key, p: Pos) => if k.symbol == s then p.size else 0.0
  }

  function OpenPnl(marks: Marks): (Key, Pos) -> real {
    (k: Key, p: Pos) => UnrealizedPnl(p, marks(k.symbol))
  }

  function ValueAt(marks: Marks): (Key, Pos) -> real {
    (k: Key, p: Pos) => Notional(p.size, marks(k.symbol))
  }

  ghost function NetCash(l: Ledger): real {
    l.cash - SumMap(l.positions, Cost)
  }

  ghost function AccountNet(l: Ledger, s: Symbol): real {
    SumMap(l.positions, SizeOn(s))
  }

  ghost function Equity(l: Ledger, marks: Marks): real {
    l.cash + SumMap(l.positions, OpenPnl(marks))
  }

  lemma BookFillLaw(l: Ledger, f: Fill)
    requires f.signed != 0.0
    ensures NetCash(BookFill(l, f)) == NetCash(l) - Notional(f.signed, f.price) - f.fee
    ensures forall s :: AccountNet(BookFill(l, f), s)
                     == AccountNet(l, s) + if s == f.key.symbol then f.signed else 0.0
  {
    hide BookPos, Basis, Notional;
    var p, q := At(l, f.key), At(BookFill(l, f), f.key);
    BookLaw(p.(fees := p.fees + f.fee), f.signed, f.price);
    BasisReads(p, p.fees + f.fee);
    SumMapUpdate(l.positions, Cost, f.key, q);
    forall s
      ensures AccountNet(BookFill(l, f), s) == AccountNet(l, s) + if s == f.key.symbol then f.signed else 0.0
    {
      SumMapUpdate(l.positions, SizeOn(s), f.key, q);
    }
  }

  // ----- Runs -----

  datatype Entry = Trade(fill: Fill) | Funding(symbol: Symbol, boundary: int, amount: real)

  predicate Bookable(e: Entry) {
    e.Trade? ==> e.fill.signed != 0.0
  }

  ghost function Apply(l: Ledger, e: Entry): Ledger {
    match e
    case Trade(f) => BookFill(l, f)
    case Funding(s, _, amount) => BookFunding(l, s, amount)
  }

  // The ledger a log of entries leaves, from genesis.
  ghost function Fold(genesis: Ledger, log: seq<Entry>): Ledger {
    if log == [] then genesis else Apply(Fold(genesis, log[..|log| - 1]), log[|log| - 1])
  }

  predicate Exposed(k: Key, p: Pos, s: Symbol) {
    k.symbol == s && p.size != 0.0
  }

  // Cash takes the whole amount; the exposed partitions take it pro rata by signed size, and none
  // of it where they net to zero.
  ghost function BookFunding(l: Ledger, s: Symbol, amount: real): Ledger {
    Ledger(l.cash + amount, FundLines(l.positions, s, amount, AccountNet(l, s)))
  }

  function FundingShare(size: real, amount: real, net: real): real
    requires net != 0.0
  {
    amount * size / net
  }

  function FundLines(m: map<Key, Pos>, s: Symbol, amount: real, net: real): (n: map<Key, Pos>)
    ensures n.Keys == m.Keys
  {
    map k | k in m :: if net != 0.0 && Exposed(k, m[k], s)
      then m[k].(funding := m[k].funding + FundingShare(m[k].size, amount, net)) else m[k]
  }

  function FundingOf(k: Key, p: Pos): real {
    p.funding
  }

  /** Funding moves cash by the amount, leaves every size and cost basis alone, and its lines sum to
      the amount whenever the symbol holds a net to charge. */
  lemma FundingLaw(l: Ledger, s: Symbol, amount: real)
    ensures NetCash(BookFunding(l, s, amount)) == NetCash(l) + amount
    ensures forall t :: AccountNet(BookFunding(l, s, amount), t) == AccountNet(l, t)
    ensures SumMap(BookFunding(l, s, amount).positions, FundingOf)
         == SumMap(l.positions, FundingOf) + if AccountNet(l, s) != 0.0 then amount else 0.0
  {
    hide FundingShare;
    var n := BookFunding(l, s, amount).positions;
    SumMapCong(l.positions, Cost, n, Cost);
    forall t ensures AccountNet(BookFunding(l, s, amount), t) == AccountNet(l, t) {
      SumMapCong(l.positions, SizeOn(t), n, SizeOn(t));
    }
    var net := AccountNet(l, s);
    if net == 0.0 {
      SumMapCong(l.positions, FundingOf, n, FundingOf);
    } else {
      FundLinesSum(l.positions, s, amount, net);
      ShareReads(amount, net);
    }
  }

  /** Whose line takes what: each partition exposed to the symbol its size over the account net of the
      amount, no other partition anything, and no other figure of any partition moves. */
  lemma FundingEach(l: Ledger, s: Symbol, amount: real, key: Key)
    ensures var r := BookFunding(l, s, amount); var p, q := At(l, key), At(r, key);
      && r.cash == l.cash + amount && r.positions.Keys == l.positions.Keys
      && q == p.(funding := q.funding)
      && (key.symbol == s && AccountNet(l, s) != 0.0 ==>
            (q.funding - p.funding) * AccountNet(l, s) == amount * p.size)
      && (key.symbol != s || AccountNet(l, s) == 0.0 ==> q.funding == p.funding)
  {
    hide AccountNet;
    var net := AccountNet(l, s);
    if net != 0.0 {
      ShareReads(amount, net);
      ShareBack(At(l, key).size, amount, net);
    }
  }

  lemma ShareBack(size: real, amount: real, net: real)
    requires net != 0.0
    ensures FundingShare(size, amount, net) * net == amount * size
  {}

  // What each partition is given, and what it holds then.
  function GivenBy(s: Symbol, amount: real, net: real): (Key, Pos) -> real
    requires net != 0.0
  {
    (k: Key, p: Pos) => FundingShare(SizeOn(s)(k, p), amount, net)
  }

  lemma FundLinesSum(m: map<Key, Pos>, s: Symbol, amount: real, net: real)
    requires net != 0.0
    ensures SumMap(FundLines(m, s, amount, net), FundingOf)
         == SumMap(m, FundingOf) + FundingShare(SumMap(m, SizeOn(s)), amount, net)
  {
    hide FundingShare, FundLines, Times;
    var after := (k: Key, p: Pos) => p.funding + FundingShare(SizeOn(s)(k, p), amount, net);
    FundLinesRead(m, s, amount, net);
    SumMapCong(FundLines(m, s, amount, net), FundingOf, m, after);
    SumMapAdd(m, FundingOf, GivenBy(s, amount, net), after);
    forall k | k in m ensures GivenBy(s, amount, net)(k, m[k]) == Times(SizeOn(s)(k, m[k]), amount / net) {
      ShareIsTimes(SizeOn(s)(k, m[k]), amount, net);
    }
    SumMapScale(m, SizeOn(s), GivenBy(s, amount, net), amount / net);
    ShareIsTimes(SumMap(m, SizeOn(s)), amount, net);
  }

  lemma ShareIsTimes(size: real, amount: real, net: real)
    requires net != 0.0
    ensures FundingShare(size, amount, net) == Times(size, amount / net)
  {
    assert amount * size / net * net == amount * size;
    assert size * (amount / net) * net == size * (amount / net * net) == size * amount;
  }

  lemma FundLinesRead(m: map<Key, Pos>, s: Symbol, amount: real, net: real)
    requires net != 0.0
    ensures FundLines(m, s, amount, net).Keys == m.Keys
    ensures forall k :: k in m ==>
      FundLines(m, s, amount, net)[k] == m[k].(funding := m[k].funding + FundingShare(SizeOn(s)(k, m[k]), amount, net))
  {
    hide FundingShare;
    ShareReads(amount, net);
  }

  lemma ShareAdds(a: real, b: real, amount: real, net: real)
    requires net != 0.0
    ensures FundingShare(a + b, amount, net) == FundingShare(a, amount, net) + FundingShare(b, amount, net)
  {
    assert amount * (a + b) == amount * a + amount * b;
  }

  lemma ShareReads(amount: real, net: real)
    requires net != 0.0
    ensures FundingShare(0.0, amount, net) == 0.0 && FundingShare(net, amount, net) == amount
  {}

  // What an entry moves net cash by.
  function Flow(e: Entry): real {
    match e
    case Trade(f) => 0.0 - Notional(f.signed, f.price) - f.fee
    case Funding(_, _, amount) => amount
  }

  function Flows(log: seq<Entry>): real {
    if log == [] then 0.0 else Flows(log[..|log| - 1]) + Flow(log[|log| - 1])
  }

  function Traded(log: seq<Entry>, s: Symbol): real {
    if log == [] then 0.0 else
      var e := log[|log| - 1];
      Traded(log[..|log| - 1], s) + if e.Trade? && e.fill.key.symbol == s then e.fill.signed else 0.0
  }

  /** Net-cash conservation over whole runs: net cash is genesis less the traded notional less the
      fees plus the funding, whatever partitions the fills opened, added to, reduced or flipped; and
      the account net is the net traded. */
  lemma {:induction false} Conservation(genesis: Ledger, log: seq<Entry>)
    requires forall i :: 0 <= i < |log| ==> Bookable(log[i])
    ensures NetCash(Fold(genesis, log)) == NetCash(genesis) + Flows(log)
    ensures forall s :: AccountNet(Fold(genesis, log), s) == AccountNet(genesis, s) + Traded(log, s)
  {
    hide Notional, BookFill, BookFunding, NetCash, AccountNet;
    if log != [] {
      var before, e := log[..|log| - 1], log[|log| - 1];
      Conservation(genesis, before);
      match e
      case Trade(f) => BookFillLaw(Fold(genesis, before), f);
      case Funding(s, _, amount) => FundingLaw(Fold(genesis, before), s, amount);
    }
  }

  // ----- Equity -----

  ghost function NetValue(l: Ledger, marks: Marks, symbols: seq<Symbol>): real {
    if symbols == [] then 0.0
    else Notional(AccountNet(l, symbols[0]), marks(symbols[0])) + NetValue(l, marks, symbols[1..])
  }

  predicate Distinct<T(==)>(s: seq<T>) {
    forall i, j :: 0 <= i < j < |s| ==> s[i] != s[j]
  }

  predicate Covers(l: Ledger, symbols: seq<Symbol>) {
    forall k :: k in l.positions ==> k.symbol in symbols
  }

  lemma NotionalAdds(a: real, b: real, price: real)
    ensures Notional(a + b, price) == Notional(a, price) + Notional(b, price)
    ensures Notional(0.0, price) == 0.0
  {}

  lemma {:induction false} NetValueRemove(l: Ledger, k: Key, marks: Marks, symbols: seq<Symbol>)
    requires k in l.positions && Distinct(symbols)
    ensures NetValue(l, marks, symbols)
         == NetValue(Ledger(l.cash, l.positions - {k}), marks, symbols)
          + if k.symbol in symbols then Notional(l.positions[k].size, marks(k.symbol)) else 0.0
  {
    hide Notional;
    if symbols != [] {
      var s, rest := symbols[0], symbols[1..];
      NetValueRemove(l, k, marks, rest);
      SumMapRemove(l.positions, SizeOn(s), k);
      var size, net := l.positions[k].size, SumMap(l.positions - {k}, SizeOn(s));
      NotionalAdds(size, net, marks(s));
      if k.symbol == s {
        assert s !in rest;
      }
    }
  }

  lemma {:induction false} ValueByNet(l: Ledger, marks: Marks, symbols: seq<Symbol>)
    requires Distinct(symbols) && Covers(l, symbols)
    ensures SumMap(l.positions, ValueAt(marks)) == NetValue(l, marks, symbols)
    decreases |l.positions|
  {
    if l.positions == map[] {
      NothingHeld(l, marks, symbols);
    } else {
      var k := Pick(l.positions);
      assert l.positions.Keys == (l.positions - {k}).Keys + {k};
      ValueByNet(Ledger(l.cash, l.positions - {k}), marks, symbols);
      NetValueRemove(l, k, marks, symbols);
    }
  }

  lemma {:induction false} NothingHeld(l: Ledger, marks: Marks, symbols: seq<Symbol>)
    requires l.positions == map[]
    ensures NetValue(l, marks, symbols) == 0.0
  {
    if symbols != [] {
      NotionalAdds(0.0, 0.0, marks(symbols[0]));
      NothingHeld(l, marks, symbols[1..]);
    }
  }

  /** Equity at any marks is net cash plus each symbol's account net at its mark: the split of a
      symbol over partitions, and every entry price, cancels out. */
  lemma EquityLaw(l: Ledger, marks: Marks, symbols: seq<Symbol>)
    requires Distinct(symbols) && Covers(l, symbols)
    ensures Equity(l, marks) == NetCash(l) + NetValue(l, marks, symbols)
  {
    forall k | k in l.positions
      ensures ValueAt(marks)(k, l.positions[k]) == OpenPnl(marks)(k, l.positions[k]) + Cost(k, l.positions[k])
    {
      var p := l.positions[k];
      assert p.size * (marks(k.symbol) - p.entry) == p.size * marks(k.symbol) - p.size * p.entry;
    }
    SumMapAdd(l.positions, OpenPnl(marks), Cost, ValueAt(marks));
    ValueByNet(l, marks, symbols);
  }

  // Two ledgers with one net cash and the same account nets are worth the same at any marks.
  lemma {:induction false} SameNetSameValue(a: Ledger, b: Ledger, marks: Marks, symbols: seq<Symbol>)
    requires forall s :: AccountNet(a, s) == AccountNet(b, s)
    ensures NetValue(a, marks, symbols) == NetValue(b, marks, symbols)
  {
    if symbols != [] {
      SameNetSameValue(a, b, marks, symbols[1..]);
    }
  }

  ghost function SymbolsOf(m: map<Key, Pos>): (symbols: seq<Symbol>)
    ensures Distinct(symbols) && forall k :: k in m ==> k.symbol in symbols
    decreases |m|
  {
    if m == map[] then [] else
      var k := Pick(m);
      assert m.Keys == (m - {k}).Keys + {k};
      var rest := SymbolsOf(m - {k});
      if k.symbol in rest then rest else rest + [k.symbol]
  }

  /** Net cash and the account nets decide what a ledger is worth. */
  lemma SameWorth(a: Ledger, b: Ledger, marks: Marks)
    requires NetCash(a) == NetCash(b) && forall s :: AccountNet(a, s) == AccountNet(b, s)
    ensures Equity(a, marks) == Equity(b, marks)
  {
    hide NetCash, AccountNet, Equity;
    var symbols := SymbolsOf(a.positions + b.positions);
    assert Covers(a, symbols) && Covers(b, symbols) by {
      forall k | k in a.positions || k in b.positions ensures k.symbol in symbols {
        assert k in a.positions + b.positions;
      }
    }
    EquityLaw(a, marks, symbols);
    EquityLaw(b, marks, symbols);
    SameNetSameValue(a, b, marks, symbols);
  }

  // ----- Several fills at one price -----

  function SignedTotal(fills: seq<Fill>): real {
    if fills == [] then 0.0 else fills[0].signed + SignedTotal(fills[1..])
  }

  function FeeTotal(fills: seq<Fill>): real {
    if fills == [] then 0.0 else fills[0].fee + FeeTotal(fills[1..])
  }

  predicate OneTrade(fills: seq<Fill>, s: Symbol, price: real) {
    forall i :: 0 <= i < |fills| ==>
      fills[i].key.symbol == s && fills[i].price == price && fills[i].signed != 0.0
  }

  lemma {:induction false} OneTradeLaw(l: Ledger, fills: seq<Fill>, s: Symbol, price: real)
    requires OneTrade(fills, s, price)
    ensures NetCash(BookAll(l, fills)) == NetCash(l) - Notional(SignedTotal(fills), price) - FeeTotal(fills)
    ensures forall t :: AccountNet(BookAll(l, fills), t)
                     == AccountNet(l, t) + if t == s then SignedTotal(fills) else 0.0
    decreases fills
  {
    hide Notional, NetCash, AccountNet, BookFill;
    NotionalAdds(0.0, 0.0, price);
    if fills != [] {
      BookFillLaw(l, fills[0]);
      OneTradeLaw(BookFill(l, fills[0]), fills[1..], s, price);
      NotionalAdds(fills[0].signed, SignedTotal(fills[1..]), price);
    }
  }

  // ----- Fills on any symbols, and a cash correction behind them -----

  function Outlay(fills: seq<Fill>): real {
    if fills == [] then 0.0 else Notional(fills[0].signed, fills[0].price) + fills[0].fee + Outlay(fills[1..])
  }

  function TradedOn(fills: seq<Fill>, s: Symbol): real {
    if fills == [] then 0.0 else (if fills[0].key.symbol == s then fills[0].signed else 0.0) + TradedOn(fills[1..], s)
  }

  lemma {:induction false} FillsLaw(l: Ledger, fills: seq<Fill>)
    requires forall i :: 0 <= i < |fills| ==> fills[i].signed != 0.0
    ensures NetCash(BookAll(l, fills)) == NetCash(l) - Outlay(fills)
    ensures forall s :: AccountNet(BookAll(l, fills), s) == AccountNet(l, s) + TradedOn(fills, s)
    decreases fills
  {
    hide Notional, NetCash, AccountNet, BookFill;
    if fills != [] {
      BookFillLaw(l, fills[0]);
      FillsLaw(BookFill(l, fills[0]), fills[1..]);
    }
  }

  // The cash line at which net cash reads the target: whatever moved it before is absorbed.
  ghost function Corrected(l: Ledger, netCash: real): Ledger {
    Ledger(netCash + SumMap(l.positions, Cost), l.positions)
  }

  ghost function Healed(l: Ledger, fills: seq<Fill>, netCash: Option<real>): Ledger {
    if netCash.Some? then Corrected(BookAll(l, fills), netCash.value) else BookAll(l, fills)
  }

  // Heals trade like any fills, and a correction leaves net cash at its target whatever they cost.
  lemma HealedLaw(l: Ledger, fills: seq<Fill>, netCash: Option<real>)
    requires forall i :: 0 <= i < |fills| ==> fills[i].signed != 0.0
    ensures NetCash(Healed(l, fills, netCash)) == if netCash.Some? then netCash.value else NetCash(l) - Outlay(fills)
    ensures forall s :: AccountNet(Healed(l, fills, netCash), s) == AccountNet(l, s) + TradedOn(fills, s)
  {
    hide BookAll, Outlay, TradedOn;
    FillsLaw(l, fills);
  }

  function SignedOn(fills: seq<Fill>, key: Key): real {
    if fills == [] then 0.0
    else (if fills[0].key == key then fills[0].signed else 0.0) + SignedOn(fills[1..], key)
  }

  lemma {:induction false} SizeAfter(l: Ledger, fills: seq<Fill>, key: Key)
    requires forall i :: 0 <= i < |fills| ==> fills[i].signed != 0.0
    ensures At(BookAll(l, fills), key).size == At(l, key).size + SignedOn(fills, key)
    decreases fills
  {
    hide BookPos, Notional, Basis;
    if fills != [] {
      var f := fills[0];
      var p := At(l, f.key);
      BookLaw(p.(fees := p.fees + f.fee), f.signed, f.price);
      SizeAfter(BookFill(l, f), fills[1..], key);
    }
  }
}
