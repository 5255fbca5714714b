// The Tier-1 reconcile cycle: the ledger's sizes and net cash against one venue snapshot, and the
// heals that close a gap seen twice. A heal books into the unattributed partition at the venue's
// entry price; a cash correction sets net cash to the venue's.

module Heal {
  import opened Domain
  import opened Sums
  import opened Positions
  import opened Ledger
  import opened Recovery
  import F = FlattenSplit

  // ----- The venue's account -----

  // `entry` is `None` where the venue posts no entry price.
  datatype VenuePos = VenuePos(size: real, entry: Option<real>, notional: real, upnl: real)

  // `quantum` is the unit the venue's cash figures are held in.
  datatype Venue = Venue(positions: map<Symbol, VenuePos>, equity: real, quantum: real)

  function SignedNotional(p: VenuePos): real {
    if p.size < 0.0 then -AbsR(p.notional) else AbsR(p.notional)
  }

  function VenueBasis(s: Symbol, p: VenuePos): real {
    SignedNotional(p) - p.upnl
  }

  function VenueUpnl(s: Symbol, p: VenuePos): real {
    p.upnl
  }

  function VenueNotional(s: Symbol, p: VenuePos): real {
    SignedNotional(p)
  }

  ghost function VenueCash(v: Venue): real {
    v.equity - SumMap(v.positions, VenueUpnl)
  }

  ghost function VenueNetCash(v: Venue): real {
    VenueCash(v) - SumMap(v.positions, VenueBasis)
  }

  // Net cash is equity less the signed notionals: the venue's cost basis, which it may round, and
  // its open PnL both drop out.
  lemma VenueNetCashIsEquity(v: Venue)
    ensures VenueNetCash(v) == v.equity - SumMap(v.positions, VenueNotional)
  {
    SumMapAdd(v.positions, VenueUpnl, VenueBasis, VenueNotional);
  }

  function VenueSize(v: Venue, s: Symbol): real {
    if s in v.positions then v.positions[s].size else 0.0
  }

  function Price(v: Venue, s: Symbol): Option<real> {
    if s in v.positions then v.positions[s].entry else None
  }

  // ----- Findings -----

  // A finding's identity across passes: its figure and its gap, venue less ledger.
  datatype Finding = SizeGap(symbol: Symbol, gap: real) | CashGap(gap: real)

  datatype SizeFinding = SizeFinding(symbol: Symbol, ledger: real, venue: real)
  datatype CashFinding = CashFinding(ledger: real, venue: real)

  function Id(f: SizeFinding): Finding {
    SizeGap(f.symbol, f.venue - f.ledger)
  }

  function CashId(f: CashFinding): Finding {
    CashGap(f.venue - f.ledger)
  }

  ghost function Enumerate<T(!new)>(s: set<T>): (q: seq<T>)
    ensures forall x :: x in q <==> x in s
    ensures forall i, j :: 0 <= i < j < |q| ==> q[i] != q[j]
    decreases |s|
  {
    if s == {} then [] else
      var x :| x in s;
      [x] + Enumerate(s - {x})
  }

  // Over the union of both sides: an absent side reads flat.
  ghost function Diverged(l: Ledger, v: Venue): set<Symbol> {
    set s | s in (set k | k in l.positions :: k.symbol) + v.positions.Keys && AccountNet(l, s) != VenueSize(v, s)
  }

  ghost function SizeFindings(l: Ledger, v: Venue): (f: seq<SizeFinding>)
    ensures |f| == |Enumerate(Diverged(l, v))|
  {
    var symbols := Enumerate(Diverged(l, v));
    seq(|symbols|, i requires 0 <= i < |symbols| =>
      SizeFinding(symbols[i], AccountNet(l, symbols[i]), VenueSize(v, symbols[i])))
  }

  function KeptCost(diverged: set<Symbol>): (Key, Pos) -> real {
    (k: Key, p: Pos) => if k.symbol in diverged then 0.0 else Basis(p)
  }

  function TakenCost(diverged: set<Symbol>): (Symbol, VenuePos) -> real {
    (s: Symbol, p: VenuePos) => if s in diverged then VenueBasis(s, p) else 0.0
  }

  // The ledger's net cash, with the venue's own cost basis on every symbol whose size diverged.
  ghost function ComparedNet(l: Ledger, v: Venue): real {
    l.cash - SumMap(l.positions, KeptCost(Diverged(l, v))) - SumMap(v.positions, TakenCost(Diverged(l, v)))
  }

  function GivenUp(diverged: set<Symbol>): (Key, Pos) -> real {
    (k: Key, p: Pos) => if k.symbol in diverged then Basis(p) else 0.0
  }

  function TakenOver(diverged: set<Symbol>): (Symbol, VenuePos) -> real {
    (s: Symbol, p: VenuePos) =>
      if s !in diverged then 0.0 else (if p.size < 0.0 then -AbsR(p.notional) else AbsR(p.notional)) - p.upnl
  }

  // What is compared is net cash with each diverged symbol's cost basis given up for the venue's.
  lemma ComparedLaw(l: Ledger, v: Venue)
    ensures ComparedNet(l, v) == NetCash(l) + SumMap(l.positions, GivenUp(Diverged(l, v)))
                                            - SumMap(v.positions, TakenOver(Diverged(l, v)))
  {
    hide Basis;
    var d := Diverged(l, v);
    SumMapAdd(l.positions, KeptCost(d), GivenUp(d), Cost);
    SumMapCong(v.positions, TakenCost(d), v.positions, TakenOver(d));
  }

  ghost predicate CashAgrees(l: Ledger, v: Venue)
    requires v.quantum > 0.0
  {
    F.Quantize(ComparedNet(l, v), v.quantum) == F.Quantize(VenueNetCash(v), v.quantum)
  }

  ghost function CashFound(l: Ledger, v: Venue): Option<CashFinding>
    requires v.quantum > 0.0
  {
    if CashAgrees(l, v) then None else Some(CashFinding(ComparedNet(l, v), VenueNetCash(v)))
  }

  // ----- The heal plan -----

  datatype Verdict = Deferred | Unconfirmed | Unpriced | Heals

  // The venue's entry prices, the symbols a fill touched during the venue read, and what the last
  // pass left seen.
  datatype Context = Context(prices: map<Symbol, Option<real>>, moved: set<Symbol>, previous: set<Finding>)

  function Judge(f: SizeFinding, x: Context): Verdict {
    if f.symbol in x.moved then Deferred
    else if Id(f) !in x.previous then Unconfirmed
    else if f.symbol !in x.prices || x.prices[f.symbol].None? then Unpriced
    else Heals
  }

  // `cash` is the net cash to correct to.
  datatype Plan = Plan(heals: seq<SizeFinding>, cash: Option<real>, deferred: nat, unconfirmed: nat, unpriced: nat,
                       seen: set<Finding>)

  function Judged(sizes: seq<SizeFinding>, x: Context, verdict: Verdict): (r: seq<SizeFinding>)
    ensures |r| <= |sizes|
  {
    if sizes == [] then [] else
      var last := sizes[|sizes| - 1];
      var r := Judged(sizes[..|sizes| - 1], x, verdict);
      if Judge(last, x) == verdict then r + [last] else r
  }

  lemma {:induction false} JudgedReads(sizes: seq<SizeFinding>, x: Context, verdict: Verdict)
    ensures forall f :: f in Judged(sizes, x, verdict) <==> f in sizes && Judge(f, x) == verdict
    ensures |Judged(sizes, x, verdict)| == |sizes| ==>
      Judged(sizes, x, verdict) == sizes && forall f :: f in sizes ==> Judge(f, x) == verdict
    ensures (forall f :: f in sizes ==> Judge(f, x) == verdict) ==> Judged(sizes, x, verdict) == sizes
  {
    hide Judge;
    if sizes != [] {
      JudgedReads(sizes[..|sizes| - 1], x, verdict);
      assert sizes == sizes[..|sizes| - 1] + [sizes[|sizes| - 1]];
    }
  }

  lemma {:induction false} JudgedFrom(sizes: seq<SizeFinding>, x: Context, verdict: Verdict, k: nat) returns (i: nat)
    requires k < |Judged(sizes, x, verdict)|
    ensures i < |sizes| && sizes[i] == Judged(sizes, x, verdict)[k]
  {
    hide Judge;
    var init := Judged(sizes[..|sizes| - 1], x, verdict);
    if k < |init| {
      i := JudgedFrom(sizes[..|sizes| - 1], x, verdict, k);
    } else {
      i := |sizes| - 1;
    }
  }

  lemma JudgedStep(sizes: seq<SizeFinding>, i: nat, x: Context, verdict: Verdict)
    requires i < |sizes|
    ensures Judged(sizes[..i + 1], x, verdict)
      == if Judge(sizes[i], x) == verdict then Judged(sizes[..i], x, verdict) + [sizes[i]]
         else Judged(sizes[..i], x, verdict)
  {
    assert sizes[..i + 1][..i] == sizes[..i];
  }

  function Ids(sizes: seq<SizeFinding>): (r: set<Finding>)
    ensures forall id :: id in r <==> exists i :: 0 <= i < |sizes| && id == Id(sizes[i])
  {
    set i | 0 <= i < |sizes| :: Id(sizes[i])
  }

  // The cash heal waits for the size heals: it goes only where every size finding heals.
  predicate CashConfirmed(cash: Option<CashFinding>, x: Context) {
    cash.Some? && x.moved == {} && CashId(cash.value) in x.previous
  }

  // What every count and the next pass's memory must be, stated finding by finding.
  function PlanOf(sizes: seq<SizeFinding>, cash: Option<CashFinding>, x: Context): Plan {
    var heals, unpriced := Judged(sizes, x, Heals), Judged(sizes, x, Unpriced);
    var settles := CashConfirmed(cash, x) && |heals| == |sizes|;
    var waits := CashConfirmed(cash, x) && |heals| < |sizes|;
    Plan(
      heals,
      if settles then Some(cash.value.venue) else None,
      |Judged(sizes, x, Deferred)| + (if (cash.Some? && x.moved != {}) || (waits && unpriced == []) then 1 else 0),
      |Judged(sizes, x, Unconfirmed)|
        + (if cash.Some? && x.moved == {} && CashId(cash.value) !in x.previous then 1 else 0),
      |unpriced| + (if waits && unpriced != [] then 1 else 0),
      Ids(sizes) - Ids(Judged(sizes, x, Deferred)) - Ids(heals)
        + if cash.Some? && x.moved == {} && !settles then {CashId(cash.value)} else {})
  }

  // The loop over the sizes: which heal, how many are held back for each reason, and which the next
  // pass is not to remember.
  method ClassifySizes(sizes: seq<SizeFinding>, x: Context)
    returns (heals: seq<SizeFinding>, deferred: nat, unconfirmed: nat, unpriced: nat, forget: set<Finding>)
    ensures heals == Judged(sizes, x, Heals)
    ensures deferred == |Judged(sizes, x, Deferred)| && unconfirmed == |Judged(sizes, x, Unconfirmed)|
    ensures unpriced == |Judged(sizes, x, Unpriced)|
    ensures forget == Ids(Judged(sizes, x, Deferred)) + Ids(heals)
  {
    hide Judged, Ids;
    heals, deferred, unconfirmed, unpriced, forget := [], 0, 0, 0, {};
    NothingJudged(x);
    assert sizes[..0] == [];
    for i := 0 to |sizes|
      invariant heals == Judged(sizes[..i], x, Heals)
      invariant deferred == |Judged(sizes[..i], x, Deferred)|
      invariant unconfirmed == |Judged(sizes[..i], x, Unconfirmed)|
      invariant unpriced == |Judged(sizes[..i], x, Unpriced)|
      invariant forget == Ids(Judged(sizes[..i], x, Deferred)) + Ids(heals)
    {
      var f := sizes[i];
      JudgedStep(sizes, i, x, Heals);
      JudgedStep(sizes, i, x, Deferred);
      JudgedStep(sizes, i, x, Unconfirmed);
      JudgedStep(sizes, i, x, Unpriced);
      IdsGrow(Judged(sizes[..i], x, Deferred), f);
      IdsGrow(heals, f);
      if f.symbol in x.moved {
        deferred := deferred + 1;
        forget := forget + {Id(f)};
        continue;
      }
      if Id(f) !in x.previous {
        unconfirmed := unconfirmed + 1;
        continue;
      }
      if f.symbol !in x.prices || x.prices[f.symbol].None? {
        unpriced := unpriced + 1;
        continue;
      }
      heals := heals + [f];
      forget := forget + {Id(f)};
    }
    assert sizes[..|sizes|] == sizes;
  }

  method Classify(sizes: seq<SizeFinding>, cash: Option<CashFinding>, x: Context) returns (p: Plan)
    ensures p == PlanOf(sizes, cash, x)
  {
    hide Judged, Ids;
    var heals, deferred, unconfirmed, unpriced, forget := ClassifySizes(sizes, x);
    SizesOnly(sizes);
    SizesOnly(heals);
    SizesOnly(Judged(sizes, x, Deferred));
    if cash.Some? {
      CashApart(Ids(sizes), forget, CashId(cash.value));
    }
    var all := Ids(sizes) + if cash.Some? then {CashId(cash.value)} else {};
    var correction: Option<real> := None;
    if cash.Some? && x.moved != {} {
      deferred := deferred + 1;
      forget := forget + {CashId(cash.value)};
    } else if cash.Some? && CashId(cash.value) !in x.previous {
      unconfirmed := unconfirmed + 1;
    } else if cash.Some? && |heals| < |sizes| {
      if unpriced > 0 {
        unpriced := unpriced + 1;
      } else {
        deferred := deferred + 1;
      }
    } else if cash.Some? {
      correction := Some(cash.value.venue);
      forget := forget + {CashId(cash.value)};
    }
    p := Plan(heals, correction, deferred, unconfirmed, unpriced, all - forget);
  }

  // A cash finding's identity is never a size finding's.
  lemma CashApart(sizes: set<Finding>, forget: set<Finding>, cash: Finding)
    requires cash.CashGap? && (forall id :: id in sizes || id in forget ==> id.SizeGap?)
    ensures sizes + {cash} - forget == sizes - forget + {cash}
    ensures sizes + {cash} - (forget + {cash}) == sizes - forget
  {}

  lemma NothingJudged(x: Context)
    ensures forall verdict :: Judged([], x, verdict) == []
    ensures Ids([]) == {}
  {}

  lemma SizesOnly(sizes: seq<SizeFinding>)
    ensures forall id :: id in Ids(sizes) ==> id.SizeGap?
  {}

  lemma IdsGrow(s: seq<SizeFinding>, f: SizeFinding)
    ensures Ids(s + [f]) == Ids(s) + {Id(f)}
  {
    var t := s + [f];
    assert forall i :: 0 <= i < |s| ==> t[i] == s[i];
    assert t[|s|] == f;
  }

  // ----- A pass -----

  function HealFills(heals: seq<SizeFinding>, v: Venue): (fills: seq<Fill>)
    ensures |fills| == |heals|
  {
    seq(|heals|, i requires 0 <= i < |heals| =>
      Fill(Key(Unattributed, heals[i].symbol), heals[i].venue - heals[i].ledger,
        Price(v, heals[i].symbol).GetOr(0.0), 0.0))
  }

  function Prices(v: Venue): map<Symbol, Option<real>> {
    map s | s in v.positions :: v.positions[s].entry
  }

  // The ledger's book and what the last pass saw and did not heal.
  datatype Cycle = Cycle(book: Book, previous: set<Finding>)

  ghost function PassPlan(c: Cycle, v: Venue, moved: set<Symbol>): Plan
    requires v.quantum > 0.0
  {
    PlanOf(SizeFindings(c.book.ledger, v), CashFound(c.book.ledger, v), Context(Prices(v), moved, c.previous))
  }

  // One pass stamped `now`. `verified` is the venue's answer to the mode guard.
  ghost function Pass(c: Cycle, v: Venue, now: int, moved: set<Symbol>, verified: bool): Cycle
    requires v.quantum > 0.0
  {
    var p := PassPlan(c, v, moved);
    var book := TakeAll(c.book, OfHeal(now), HealFills(p.heals, v));
    Cycle(if p.cash.Some? && verified then book.(ledger := Corrected(book.ledger, p.cash.value)) else book, p.seen)
  }

  // ----- What one pass does -----

  lemma DivergedReads(l: Ledger, v: Venue)
    ensures forall s :: s in Diverged(l, v) <==> AccountNet(l, s) != VenueSize(v, s)
  {
    forall s | s !in (set k | k in l.positions :: k.symbol) + v.positions.Keys
      ensures AccountNet(l, s) == VenueSize(v, s)
    {
      SumMapZero(l.positions, SizeOn(s));
    }
  }

  predicate DistinctSymbols(sizes: seq<SizeFinding>) {
    forall i, j :: 0 <= i < j < |sizes| ==> sizes[i].symbol != sizes[j].symbol
  }

  lemma FindingsRead(l: Ledger, v: Venue)
    ensures DistinctSymbols(SizeFindings(l, v))
    ensures forall f :: f in SizeFindings(l, v) ==>
      f.symbol in Diverged(l, v) && f.ledger == AccountNet(l, f.symbol) && f.venue == VenueSize(v, f.symbol)
    ensures forall s :: s in Diverged(l, v) ==> SizeFinding(s, AccountNet(l, s), VenueSize(v, s)) in SizeFindings(l, v)
    ensures SymbolsIn(SizeFindings(l, v)) == Diverged(l, v)
  {
    hide AccountNet, Diverged, Enumerate;
    var symbols := Enumerate(Diverged(l, v));
    forall s | s in Diverged(l, v) ensures SizeFinding(s, AccountNet(l, s), VenueSize(v, s)) in SizeFindings(l, v) {
      var i :| 0 <= i < |symbols| && symbols[i] == s;
      assert SizeFindings(l, v)[i] == SizeFinding(s, AccountNet(l, s), VenueSize(v, s));
    }
    forall i | 0 <= i < |symbols| ensures symbols[i] in SymbolsIn(SizeFindings(l, v)) {
      assert SizeFindings(l, v)[i].symbol == symbols[i];
    }
  }

  lemma {:induction false} JudgedDistinct(sizes: seq<SizeFinding>, x: Context, verdict: Verdict)
    requires DistinctSymbols(sizes)
    ensures DistinctSymbols(Judged(sizes, x, verdict))
  {
    hide Judge;
    if sizes != [] {
      var init := sizes[..|sizes| - 1];
      JudgedDistinct(init, x, verdict);
      forall k | 0 <= k < |Judged(init, x, verdict)|
        ensures Judged(init, x, verdict)[k].symbol != sizes[|sizes| - 1].symbol
      {
        var i := JudgedFrom(init, x, verdict, k);
        assert sizes[i] == init[i];
      }
    }
  }

  function SymbolsIn(sizes: seq<SizeFinding>): (r: set<Symbol>)
  {
    set i | 0 <= i < |sizes| :: sizes[i].symbol
  }

  // The heal fills take each healed symbol's account net to the venue's size, and no other.
  lemma {:induction false} HealNets(l: Ledger, heals: seq<SizeFinding>, v: Venue)
    requires DistinctSymbols(heals)
    requires forall i :: 0 <= i < |heals| ==>
      && heals[i].ledger == AccountNet(l, heals[i].symbol) != heals[i].venue
      && heals[i].venue == VenueSize(v, heals[i].symbol)
    ensures forall s :: AccountNet(BookAll(l, HealFills(heals, v)), s)
                     == if s in SymbolsIn(heals) then VenueSize(v, s) else AccountNet(l, s)
    decreases heals
  {
    hide AccountNet, BookFill;
    if heals != [] {
      var fills, rest := HealFills(heals, v), heals[1..];
      assert fills[1..] == HealFills(rest, v);
      var next := BookFill(l, fills[0]);
      BookFillLaw(l, fills[0]);
      assert forall i :: 0 <= i < |rest| ==> rest[i] == heals[i + 1];
      HealNets(next, rest, v);
      assert SymbolsIn(heals) == {heals[0].symbol} + SymbolsIn(rest) by {
        assert forall i :: 0 < i < |heals| ==> heals[i] == rest[i - 1];
      }
    }
  }

  ghost function Gap(l: Ledger, v: Venue, s: Symbol): Finding {
    SizeGap(s, VenueSize(v, s) - AccountNet(l, s))
  }

  // The sizes a pass with no fill in flight heals: seen last pass with the same gap, and priced.
  ghost function Healing(c: Cycle, v: Venue): set<Symbol> {
    set s | s in Diverged(c.book.ledger, v) && Gap(c.book.ledger, v, s) in c.previous && Price(v, s).Some?
  }

  ghost predicate CashHeals(c: Cycle, v: Venue)
    requires v.quantum > 0.0
  {
    var cash := CashFound(c.book.ledger, v);
    cash.Some? && CashId(cash.value) in c.previous && Healing(c, v) == Diverged(c.book.ledger, v)
  }

  // Every heal the book ever took carries an earlier stamp.
  ghost predicate StampsBefore(b: Book, now: int) {
    forall key, id {:trigger id in SeenAt(b, key)} :: id in SeenAt(b, key) && id.ReconcileId? ==> id.ts < now
  }

  lemma HealsRead(c: Cycle, v: Venue)
    requires v.quantum > 0.0
    ensures var heals := PassPlan(c, v, {}).heals;
      && DistinctSymbols(heals)
      && SymbolsIn(heals) == Healing(c, v)
      && (forall f :: f in heals ==>
            && f.ledger == AccountNet(c.book.ledger, f.symbol) != f.venue
            && f.venue == VenueSize(v, f.symbol))
      && (|heals| == |SizeFindings(c.book.ledger, v)| <==> Healing(c, v) == Diverged(c.book.ledger, v))
  {
    hide AccountNet, Judged, SizeFindings, CashFound, Diverged;
    var l, x := c.book.ledger, Context(Prices(v), {}, c.previous);
    var sizes := SizeFindings(l, v);
    var heals := Judged(sizes, x, Heals);
    FindingsRead(l, v);
    DivergedReads(l, v);
    JudgedReads(sizes, x, Heals);
    JudgedDistinct(sizes, x, Heals);
    forall s | s in Healing(c, v) ensures s in SymbolsIn(heals) {
      var f := SizeFinding(s, AccountNet(l, s), VenueSize(v, s));
      assert f in heals;
      var i :| 0 <= i < |heals| && heals[i] == f;
    }
    if Healing(c, v) == Diverged(l, v) {
      assert forall f :: f in sizes ==> Judge(f, x) == Heals;
    }
    if |heals| == |sizes| {
      forall s | s in Diverged(l, v) ensures s in Healing(c, v) {
        assert SizeFinding(s, AccountNet(l, s), VenueSize(v, s)) in sizes;
      }
    }
  }

  // Distinct symbols, so an identity stands for one finding.
  lemma IdsOf(sizes: seq<SizeFinding>, part: seq<SizeFinding>, f: SizeFinding)
    requires DistinctSymbols(sizes) && f in sizes && forall g :: g in part ==> g in sizes
    ensures Id(f) in Ids(part) <==> f in part
  {
    if f in part {
      var i :| 0 <= i < |part| && part[i] == f;
      assert Id(part[i]) in Ids(part);
    }
    if Id(f) in Ids(part) {
      var i :| 0 <= i < |part| && Id(part[i]) == Id(f);
      OnePerSymbol(sizes, part[i], f);
    }
  }

  lemma OnePerSymbol(sizes: seq<SizeFinding>, f: SizeFinding, g: SizeFinding)
    requires DistinctSymbols(sizes) && f in sizes && g in sizes && f.symbol == g.symbol
    ensures f == g
  {}

  lemma PlanSeen(sizes: seq<SizeFinding>, cash: Option<CashFinding>, x: Context)
    requires DistinctSymbols(sizes) && x.moved == {}
    ensures var p := PlanOf(sizes, cash, x);
      && (forall f :: f in sizes ==> (Id(f) in p.seen <==> Judge(f, x) != Heals))
      && (forall id: Finding :: id in p.seen && id.SizeGap? ==> id.symbol in SymbolsIn(sizes))
      && (forall id: Finding :: id.CashGap? ==>
        (id in p.seen <==> cash.Some? && p.cash.None? && id == CashId(cash.value)))
  {
    hide Judged, Ids;
    var p, deferred := PlanOf(sizes, cash, x), Judged(sizes, x, Deferred);
    JudgedReads(sizes, x, Heals);
    JudgedReads(sizes, x, Deferred);
    SizesOnly(sizes);
    forall id: Finding | id in p.seen && id.SizeGap? ensures id.symbol in SymbolsIn(sizes) {
      var i :| 0 <= i < |sizes| && id == Id(sizes[i]);
      assert sizes[i].symbol in SymbolsIn(sizes);
    }
    forall f | f in sizes ensures Id(f) in p.seen <==> Judge(f, x) != Heals {
      IdsOf(sizes, sizes, f);
      IdsOf(sizes, p.heals, f);
      IdsOf(sizes, deferred, f);
    }
  }

  lemma SeenReads(c: Cycle, v: Venue)
    requires v.quantum > 0.0
    ensures var p := PassPlan(c, v, {}); var cash := CashFound(c.book.ledger, v);
      && (forall s :: Gap(c.book.ledger, v, s) in p.seen <==> s in Diverged(c.book.ledger, v) - Healing(c, v))
      && (forall id: Finding :: id.CashGap? ==>
            (id in p.seen <==> cash.Some? && id == CashId(cash.value) && !CashHeals(c, v)))
      && p.cash == (if CashHeals(c, v) then Some(VenueNetCash(v)) else None)
  {
    hide AccountNet, Judged, SizeFindings, Diverged, CashAgrees, Ids;
    var l, x := c.book.ledger, Context(Prices(v), {}, c.previous);
    var sizes := SizeFindings(l, v);
    HealsRead(c, v);
    FindingsRead(l, v);
    PlanSeen(sizes, CashFound(l, v), x);
    forall s ensures Gap(l, v, s) in PassPlan(c, v, {}).seen <==> s in Diverged(l, v) - Healing(c, v) {
      var f := SizeFinding(s, AccountNet(l, s), VenueSize(v, s));
      if s in Diverged(l, v) {
        assert f in sizes;
        assert Id(f) == Gap(l, v, s);
      }
    }
  }

  /** One verified pass with no fill in flight: it takes exactly the sizes seen before at the same
      gap and priced to the venue's, leaves every other net alone, remembers every finding it left,
      and corrects net cash to the venue's exactly where no size finding is left. */
  lemma PassLaw(c: Cycle, v: Venue, now: int)
    requires v.quantum > 0.0 && StampsBefore(c.book, now)
    ensures var r := Pass(c, v, now, {}, true); var l := c.book.ledger;
      && (forall s :: AccountNet(r.book.ledger, s) == if s in Healing(c, v) then VenueSize(v, s) else AccountNet(l, s))
      && Diverged(r.book.ledger, v) == Diverged(l, v) - Healing(c, v)
    ensures var r := Pass(c, v, now, {}, true); var cash := CashFound(c.book.ledger, v);
      && (forall s :: Gap(c.book.ledger, v, s) in r.previous <==> s in Diverged(r.book.ledger, v))
      && (forall id: Finding :: id.CashGap? ==>
            (id in r.previous <==> cash.Some? && id == CashId(cash.value) && !CashHeals(c, v)))
    ensures CashHeals(c, v) ==> NetCash(Pass(c, v, now, {}, true).book.ledger) == VenueNetCash(v)
    ensures !CashHeals(c, v) && Healing(c, v) == {} ==> Pass(c, v, now, {}, true).book == c.book
    ensures forall later :: now < later ==> StampsBefore(Pass(c, v, now, {}, true).book, later)
  {
    hide AccountNet, PassPlan, CashFound, TakeAll, Healing, Diverged;
    var heals := PassPlan(c, v, {}).heals;
    HealsRead(c, v);
    SeenReads(c, v);
    var fills := HealFills(heals, v);
    assert forall i :: 0 <= i < |heals| ==> heals[i] in heals;
    TakeAllBooks(c.book, OfHeal(now), fills);
    HealNets(c.book.ledger, heals, v);
    var book, r := TakeAll(c.book, OfHeal(now), fills), Pass(c, v, now, {}, true);
    SameNets(book.ledger, r.book.ledger);
    assert forall key :: SeenAt(r.book, key) == SeenAt(book, key);
    DivergedReads(c.book.ledger, v);
    DivergedReads(r.book.ledger, v);
    HealingDiverged(c, v);
    assert Diverged(r.book.ledger, v) == Diverged(c.book.ledger, v) - Healing(c, v);
    if Healing(c, v) == {} {
      NoSymbols(heals);
      NothingTaken(c.book, OfHeal(now));
    }
  }

  lemma NoSymbols(sizes: seq<SizeFinding>)
    ensures SymbolsIn(sizes) == {} ==> sizes == []
  {
    if sizes != [] {
      assert sizes[0].symbol in SymbolsIn(sizes);
    }
  }

  lemma HealingDiverged(c: Cycle, v: Venue)
    ensures Healing(c, v) <= Diverged(c.book.ledger, v)
  {}

  lemma NothingTaken(b: Book, o: Origin)
    ensures TakeAll(b, o, []) == b
  {}

  lemma SameNets(a: Ledger, b: Ledger)
    requires a.positions == b.positions
    ensures forall s :: AccountNet(a, s) == AccountNet(b, s)
  {}

  // Where no size diverged, the figure compared is the ledger's own net cash.
  lemma ComparedIsNetCash(l: Ledger, v: Venue)
    requires Diverged(l, v) == {}
    ensures ComparedNet(l, v) == NetCash(l)
  {
    SumMapCong(l.positions, KeptCost({}), l.positions, Cost);
    SumMapZero(v.positions, TakenCost({}));
  }

  /** Nothing heals on one sighting. Whatever trading and whatever snapshots come between two passes,
      a size the second heals was found by the first at the same gap, with no fill in flight either
      time and not healed already; and so was the net cash it corrects. */
  lemma TwoSightings(first: seq<SizeFinding>, firstCash: Option<CashFinding>, x: Context,
                     second: seq<SizeFinding>, secondCash: Option<CashFinding>, y: Context)
    requires DistinctSymbols(first) && y.previous == PlanOf(first, firstCash, x).seen
    ensures forall f :: f in PlanOf(second, secondCash, y).heals ==>
      f.symbol !in y.moved && exists g :: g in first && Id(g) == Id(f) && g.symbol !in x.moved && Judge(g, x) != Heals
    ensures PlanOf(second, secondCash, y).cash.Some? ==>
      && firstCash.Some? && secondCash.Some? && CashId(firstCash.value) == CashId(secondCash.value)
      && x.moved == {} && y.moved == {}
      && forall f :: f in second ==> f in PlanOf(second, secondCash, y).heals
  {
    hide Judged, Ids;
    var heals, deferred := Judged(first, x, Heals), Judged(first, x, Deferred);
    JudgedReads(first, x, Heals);
    JudgedReads(first, x, Deferred);
    JudgedReads(second, y, Heals);
    SizesOnly(first);
    forall f | f in PlanOf(second, secondCash, y).heals
      ensures && f.symbol !in y.moved
              && exists g :: g in first && Id(g) == Id(f) && g.symbol !in x.moved && Judge(g, x) != Heals
    {
      assert Id(f) in y.previous;
      var i :| 0 <= i < |first| && Id(f) == Id(first[i]);
      IdsOf(first, heals, first[i]);
      IdsOf(first, deferred, first[i]);
    }
  }

  // ----- What a plan holds, finding by finding -----

  // No fill touched the symbol during the venue read, the pass before saw the same gap, and the venue
  // prices it.
  predicate MayHeal(f: SizeFinding, x: Context) {
    && f.symbol !in x.moved && SizeGap(f.symbol, f.venue - f.ledger) in x.previous
    && f.symbol in x.prices && x.prices[f.symbol].Some?
  }

  /** Exactly what heals, with fills in flight or none: the sizes that may, and the cash line to the
      venue's figure where no fill is in flight, the same gap was seen before, and every size heals. */
  lemma HealsIff(sizes: seq<SizeFinding>, cash: Option<CashFinding>, x: Context)
    ensures var p := PlanOf(sizes, cash, x);
      && (forall f :: f in p.heals <==> f in sizes && MayHeal(f, x))
      && p.cash == if cash.Some? && x.moved == {} && CashGap(cash.value.venue - cash.value.ledger) in x.previous
                      && forall f :: f in sizes ==> MayHeal(f, x)
                   then Some(cash.value.venue) else None
  {
    hide Judged, Ids;
    JudgedReads(sizes, x, Heals);
  }

  /** What a pass remembers: the sizes no fill touched that did not heal, and the cash gap where no fill
      was in flight and it was not corrected. */
  lemma RemembersIff(sizes: seq<SizeFinding>, cash: Option<CashFinding>, x: Context)
    requires DistinctSymbols(sizes)
    ensures var p := PlanOf(sizes, cash, x);
      && (forall f :: f in sizes ==>
            (SizeGap(f.symbol, f.venue - f.ledger) in p.seen <==> f.symbol !in x.moved && !MayHeal(f, x)))
      && (forall id :: id in p.seen && id.SizeGap? ==>
            exists f :: f in sizes && id == SizeGap(f.symbol, f.venue - f.ledger))
      && (forall id: Finding :: id.CashGap? ==>
            (id in p.seen <==> cash.Some? && x.moved == {} && p.cash.None?
                               && id == CashGap(cash.value.venue - cash.value.ledger)))
  {
    hide Judged, Ids, MayHeal;
    var p, deferred := PlanOf(sizes, cash, x), Judged(sizes, x, Deferred);
    HealsIff(sizes, cash, x);
    JudgedReads(sizes, x, Heals);
    JudgedReads(sizes, x, Deferred);
    SizesOnly(sizes);
    forall f | f in sizes
      ensures SizeGap(f.symbol, f.venue - f.ledger) in p.seen <==> f.symbol !in x.moved && !MayHeal(f, x)
    {
      IdsOf(sizes, sizes, f);
      IdsOf(sizes, p.heals, f);
      IdsOf(sizes, deferred, f);
    }
    forall id | id in p.seen && id.SizeGap?
      ensures exists f :: f in sizes && id == SizeGap(f.symbol, f.venue - f.ledger)
    {
      var i :| 0 <= i < |sizes| && id == Id(sizes[i]);
      assert sizes[i] in sizes;
    }
  }

  function CountOf(sizes: seq<SizeFinding>, which: SizeFinding -> bool): nat {
    if sizes == [] then 0 else
      CountOf(sizes[..|sizes| - 1], which) + if which(sizes[|sizes| - 1]) then 1 else 0
  }

  lemma {:induction false} CountReads(sizes: seq<SizeFinding>, x: Context, verdict: Verdict, which: SizeFinding -> bool)
    requires forall f :: which(f) <==> Judge(f, x) == verdict
    ensures |Judged(sizes, x, verdict)| == CountOf(sizes, which)
  {
    hide Judge;
    if sizes != [] {
      CountReads(sizes[..|sizes| - 1], x, verdict, which);
    }
  }

  function Touched(x: Context): SizeFinding -> bool {
    (f: SizeFinding) => f.symbol in x.moved
  }

  function FirstSeen(x: Context): SizeFinding -> bool {
    (f: SizeFinding) => f.symbol !in x.moved && SizeGap(f.symbol, f.venue - f.ledger) !in x.previous
  }

  function NoPrice(x: Context): SizeFinding -> bool {
    (f: SizeFinding) =>
      && f.symbol !in x.moved && SizeGap(f.symbol, f.venue - f.ledger) in x.previous
      && !(f.symbol in x.prices && x.prices[f.symbol].Some?)
  }

  /** Every finding is accounted for once: healed, or held back for the one reason counted. */
  lemma PlanCounts(sizes: seq<SizeFinding>, cash: Option<CashFinding>, x: Context)
    ensures var p := PlanOf(sizes, cash, x);
      var again := cash.Some? && x.moved == {} && CashGap(cash.value.venue - cash.value.ledger) in x.previous;
      var waits := again && |p.heals| < |sizes|;
      && |p.heals| + p.deferred + p.unconfirmed + p.unpriced + (if p.cash.Some? then 1 else 0)
         == |sizes| + (if cash.Some? then 1 else 0)
      && p.deferred == CountOf(sizes, Touched(x))
           + (if cash.Some? && (x.moved != {} || (waits && CountOf(sizes, NoPrice(x)) == 0)) then 1 else 0)
      && p.unconfirmed == CountOf(sizes, FirstSeen(x)) + (if cash.Some? && x.moved == {} && !again then 1 else 0)
      && p.unpriced == CountOf(sizes, NoPrice(x)) + (if waits && CountOf(sizes, NoPrice(x)) > 0 then 1 else 0)
  {
    hide Judged, Ids, CountOf;
    CountReads(sizes, x, Deferred, Touched(x));
    CountReads(sizes, x, Unconfirmed, FirstSeen(x));
    CountReads(sizes, x, Unpriced, NoPrice(x));
    VerdictsSum(sizes, x);
  }

  lemma {:induction false} VerdictsSum(sizes: seq<SizeFinding>, x: Context)
    ensures |Judged(sizes, x, Deferred)| + |Judged(sizes, x, Unconfirmed)| + |Judged(sizes, x, Unpriced)|
          + |Judged(sizes, x, Heals)| == |sizes|
  {
    if sizes != [] {
      VerdictsSum(sizes[..|sizes| - 1], x);
    }
  }

  // ----- What a pass books, partition by partition -----

  ghost predicate AllPriced(heals: seq<SizeFinding>, v: Venue) {
    forall i :: 0 <= i < |heals| ==> heals[i].symbol in v.positions && v.positions[heals[i].symbol].entry.Some?
  }

  // Each gap at the venue's entry price.
  function GapCost(heals: seq<SizeFinding>, v: Venue): real
    requires AllPriced(heals, v)
  {
    if heals == [] then 0.0 else
      Notional(heals[0].venue - heals[0].ledger, v.positions[heals[0].symbol].entry.value) + GapCost(heals[1..], v)
  }

  lemma {:induction false} GapsOutlay(heals: seq<SizeFinding>, v: Venue)
    requires AllPriced(heals, v)
    ensures Outlay(HealFills(heals, v)) == GapCost(heals, v)
  {
    if heals != [] {
      assert HealFills(heals, v)[1..] == HealFills(heals[1..], v);
      GapsOutlay(heals[1..], v);
    }
  }

  lemma PlanReads(c: Cycle, v: Venue, moved: set<Symbol>)
    requires v.quantum > 0.0
    ensures var heals := PassPlan(c, v, moved).heals;
      && DistinctSymbols(heals) && AllPriced(heals, v)
      && (forall f :: f in heals ==>
            && f.symbol !in moved
            && f.ledger == AccountNet(c.book.ledger, f.symbol) != f.venue
            && f.venue == (if f.symbol in v.positions then v.positions[f.symbol].size else 0.0))
      && (PassPlan(c, v, moved).cash.Some? ==> PassPlan(c, v, moved).cash == Some(VenueNetCash(v)))
  {
    hide AccountNet, Judged, SizeFindings, CashAgrees, Diverged;
    var l, x := c.book.ledger, Context(Prices(v), moved, c.previous);
    var sizes := SizeFindings(l, v);
    FindingsRead(l, v);
    DivergedReads(l, v);
    JudgedReads(sizes, x, Heals);
    JudgedDistinct(sizes, x, Heals);
    var heals := Judged(sizes, x, Heals);
    forall i | 0 <= i < |heals| ensures heals[i].symbol in v.positions && v.positions[heals[i].symbol].entry.Some? {
      assert heals[i] in heals;
    }
  }

  lemma HealKeys(heals: seq<SizeFinding>, v: Venue)
    requires DistinctSymbols(heals)
    ensures DistinctKeys(HealFills(heals, v))
    ensures forall key ::
      key in KeysOf(HealFills(heals, v)) <==> key.owner.Unattributed? && key.symbol in SymbolsIn(heals)
  {
    var fills := HealFills(heals, v);
    forall s | s in SymbolsIn(heals) ensures Key(Unattributed, s) in KeysOf(fills) {
      var i :| 0 <= i < |heals| && heals[i].symbol == s;
      assert fills[i].key == Key(Unattributed, s);
    }
  }

  // What a heal of `gap` at `price` does to a partition.
  predicate HealedAt(p: Pos, q: Pos, gap: real, price: real) {
    && q.size == p.size + gap && q.fees == p.fees && q.funding == p.funding
    && q.realized - Basis(q) == p.realized - Basis(p) - Notional(gap, price)
    && (p.size == 0.0 ==> q.entry == price && q.realized == p.realized)
  }

  lemma HealsBook(l: Ledger, heals: seq<SizeFinding>, v: Venue)
    requires DistinctSymbols(heals) && AllPriced(heals, v)
    requires forall i :: 0 <= i < |heals| ==> heals[i].venue != heals[i].ledger
    ensures var r := BookAll(l, HealFills(heals, v));
      && (forall i :: 0 <= i < |heals| ==>
            var f := heals[i]; var key := Key(Unattributed, f.symbol);
            HealedAt(At(l, key), At(r, key), f.venue - f.ledger, v.positions[f.symbol].entry.value))
      && (forall key: Key :: key.owner.Strategy? || key.symbol !in SymbolsIn(heals) ==> At(r, key) == At(l, key))
      && NetCash(r) == NetCash(l) - GapCost(heals, v)
  {
    hide NetCash, BookAll, KeysOf, GapCost, Outlay, HealedAt, BookPos;
    var fills := HealFills(heals, v);
    HealKeys(heals, v);
    BookAllEach(l, fills);
    GapsOutlay(heals, v);
    FillsLaw(l, fills);
    var r := BookAll(l, fills);
    forall i | 0 <= i < |heals|
      ensures var f := heals[i]; var key := Key(Unattributed, f.symbol);
        HealedAt(At(l, key), At(r, key), f.venue - f.ledger, v.positions[f.symbol].entry.value)
    {
      HealBooks(At(l, fills[i].key), fills[i]);
    }
  }

  /** What one pass books, with fills in flight or none, verified or not. Each healed symbol's gap goes
      into its unattributed partition at the venue's entry price: a flat one ends at that entry, no
      other partition moves, and net cash moves by minus the gap at that price, unless a verified
      correction sets it to the venue's. */
  lemma PassBooks(c: Cycle, v: Venue, now: int, moved: set<Symbol>, verified: bool)
    requires v.quantum > 0.0 && StampsBefore(c.book, now)
    ensures AllPriced(PassPlan(c, v, moved).heals, v)
    ensures var p := PassPlan(c, v, moved); var l, r := c.book.ledger, Pass(c, v, now, moved, verified).book.ledger;
      && (forall i :: 0 <= i < |p.heals| ==>
            var f := p.heals[i]; var key := Key(Unattributed, f.symbol);
            HealedAt(At(l, key), At(r, key), VenueSize(v, f.symbol) - AccountNet(l, f.symbol),
                     v.positions[f.symbol].entry.value))
      && (forall key: Key :: key.owner.Strategy? || key.symbol !in SymbolsIn(p.heals) ==> At(r, key) == At(l, key))
      && (forall s :: AccountNet(r, s) == if s in SymbolsIn(p.heals) then VenueSize(v, s) else AccountNet(l, s))
      && NetCash(r) == if verified && p.cash.Some? then VenueNetCash(v) else NetCash(l) - GapCost(p.heals, v)
  {
    hide AccountNet, NetCash, PassPlan, TakeAll, BookAll, KeysOf, GapCost, VenueNetCash, HealedAt, SymbolsIn, AllPriced;
    var l, p := c.book.ledger, PassPlan(c, v, moved);
    var fills := HealFills(p.heals, v);
    PlanReads(c, v, moved);
    HealKeys(p.heals, v);
    assert forall i :: 0 <= i < |p.heals| ==> p.heals[i] in p.heals;
    TakeAllBooks(c.book, OfHeal(now), fills);
    HealNets(l, p.heals, v);
    HealsBook(l, p.heals, v);
    var r := Pass(c, v, now, moved, verified).book.ledger;
    CorrectedLaw(BookAll(l, fills), VenueNetCash(v));
    SameNets(BookAll(l, fills), r);
    forall key ensures At(r, key) == At(BookAll(l, fills), key) {}
  }

  lemma CorrectedLaw(l: Ledger, netCash: real)
    ensures NetCash(Corrected(l, netCash)) == netCash
  {}

  lemma HealBooks(p: Pos, f: Fill)
    requires f.signed != 0.0 && f.fee == 0.0
    ensures HealedAt(p, BookPos(p.(fees := p.fees + f.fee), f.signed, f.price), f.signed, f.price)
  {
    hide Notional, BookPos, Basis;
    assert p.(fees := p.fees + f.fee) == p;
    BookLaw(p, f.signed, f.price);
    if p.size == 0.0 {
      OpensAt(p, f.signed, f.price);
    }
  }

  lemma OpensAt(p: Pos, signed: real, price: real)
    requires p.size == 0.0
    ensures BookPos(p, signed, price) == p.(size := signed, entry := price)
  {}

  // ----- Repeated passes over an unchanging snapshot -----

  ghost function Passes(c: Cycle, v: Venue, times: seq<int>): Cycle
    requires v.quantum > 0.0
    decreases times
  {
    if times == [] then c else Passes(Pass(c, v, times[0], {}, true), v, times[1..])
  }

  // Strictly increasing stamps, later than any heal the book ever took.
  ghost predicate Ordered(c: Cycle, times: seq<int>) {
    && (forall i, j :: 0 <= i < j < |times| ==> times[i] < times[j])
    && forall i :: 0 <= i < |times| ==> StampsBefore(c.book, times[i])
  }

  ghost predicate Priced(l: Ledger, v: Venue) {
    forall s :: s in Diverged(l, v) ==> Price(v, s).Some?
  }

  // Every gap the ledger has was on the last pass's list.
  ghost predicate Remembered(c: Cycle, v: Venue) {
    forall s :: s in Diverged(c.book.ledger, v) ==> Gap(c.book.ledger, v, s) in c.previous
  }

  ghost predicate Agrees(l: Ledger, v: Venue)
    requires v.quantum > 0.0
  {
    Diverged(l, v) == {} && CashAgrees(l, v)
  }

  lemma OnePass(c: Cycle, v: Venue, times: seq<int>)
    requires v.quantum > 0.0 && Ordered(c, times) && times != []
    ensures var r := Pass(c, v, times[0], {}, true);
      && Ordered(r, times[1..]) && Remembered(r, v)
      && Diverged(r.book.ledger, v) <= Diverged(c.book.ledger, v)
      && (Priced(c.book.ledger, v) ==> Priced(r.book.ledger, v))
      && (Priced(c.book.ledger, v) && Remembered(c, v) ==> Diverged(r.book.ledger, v) == {})
      && (Agrees(c.book.ledger, v) ==> r.book == c.book)
  {
    hide Pass, Diverged, CashAgrees;
    PassLaw(c, v, times[0]);
    HealingDiverged(c, v);
    var r := Pass(c, v, times[0], {}, true);
    forall s | s in Diverged(r.book.ledger, v) ensures Gap(r.book.ledger, v, s) in r.previous {
      assert Gap(c.book.ledger, v, s) in r.previous;
    }
    if Priced(c.book.ledger, v) && Remembered(c, v) {
      assert Healing(c, v) == Diverged(c.book.ledger, v);
    }
  }

  // Once the sizes agree, a cash gap heals on the pass after the one that first lists it.
  lemma CashSettles(c: Cycle, v: Venue, times: seq<int>)
    requires v.quantum > 0.0 && Ordered(c, times) && |times| >= 2 && Diverged(c.book.ledger, v) == {}
    ensures Agrees(Passes(c, v, times[..2]).book.ledger, v)
  {
    hide Pass, Diverged, AccountNet, NetCash, Healing;
    HealingDiverged(c, v);
    var c1 := Pass(c, v, times[0], {}, true);
    PassLaw(c, v, times[0]);
    OnePass(c, v, times);
    CashAfter(c, v, times[0]);
    HealingDiverged(c1, v);
    PassLaw(c1, v, times[1]);
    OnePass(c1, v, times[1..]);
    CashAfter(c1, v, times[1]);
    assert times[..2][1..] == [times[1]];
    assert Passes(c, v, times[..2]) == Passes(c1, v, [times[1]]);
    assert Passes(c1, v, [times[1]]) == Pass(c1, v, times[1], {}, true);
  }

  lemma CashAfter(c: Cycle, v: Venue, now: int)
    requires v.quantum > 0.0 && StampsBefore(c.book, now) && Diverged(c.book.ledger, v) == {}
    ensures CashHeals(c, v) ==> Agrees(Pass(c, v, now, {}, true).book.ledger, v)
  {
    hide Pass, Diverged, NetCash, Healing;
    HealingDiverged(c, v);
    PassLaw(c, v, now);
    if CashHeals(c, v) {
      ComparedIsNetCash(Pass(c, v, now, {}, true).book.ledger, v);
    }
  }

  lemma {:induction false} AgreedStays(c: Cycle, v: Venue, times: seq<int>)
    requires v.quantum > 0.0 && Ordered(c, times) && Agrees(c.book.ledger, v)
    ensures Passes(c, v, times).book == c.book
    decreases times
  {
    hide Pass, Agrees;
    if times != [] {
      OnePass(c, v, times);
      AgreedStays(Pass(c, v, times[0], {}, true), v, times[1..]);
    }
  }

  lemma {:induction false} SizesStay(c: Cycle, v: Venue, times: seq<int>)
    requires v.quantum > 0.0 && Ordered(c, times)
    ensures Diverged(Passes(c, v, times).book.ledger, v) <= Diverged(c.book.ledger, v)
    decreases times
  {
    hide Pass, Diverged;
    if times != [] {
      OnePass(c, v, times);
      SizesStay(Pass(c, v, times[0], {}, true), v, times[1..]);
    }
  }

  lemma {:induction false} PassesSplit(c: Cycle, v: Venue, times: seq<int>, k: nat)
    requires v.quantum > 0.0 && Ordered(c, times) && k <= |times|
    ensures Passes(c, v, times) == Passes(Passes(c, v, times[..k]), v, times[k..])
    ensures Ordered(Passes(c, v, times[..k]), times[k..])
    decreases times
  {
    hide Pass;
    if k == 0 {
      assert times[..0] == [] && times[0..] == times;
    } else {
      OnePass(c, v, times);
      PassesSplit(Pass(c, v, times[0], {}, true), v, times[1..], k - 1);
      assert times[1..][..k - 1] == times[..k][1..] && times[1..][k - 1..] == times[k..];
    }
  }

  // Two passes settle the sizes: the first lists what it did not heal, the second heals the list.
  lemma SizesInTwo(c: Cycle, v: Venue, times: seq<int>)
    requires v.quantum > 0.0 && Ordered(c, times) && |times| >= 2 && Priced(c.book.ledger, v)
    ensures Diverged(Passes(c, v, times[..2]).book.ledger, v) == {}
  {
    hide Pass, Diverged;
    var c1 := Pass(c, v, times[0], {}, true);
    OnePass(c, v, times);
    OnePass(c1, v, times[1..]);
    assert times[..2][1..] == [times[1]];
    assert Passes(c, v, times[..2]) == Passes(c1, v, [times[1]]);
    assert Passes(c1, v, [times[1]]) == Pass(c1, v, times[1], {}, true);
  }

  /** Heal convergence. From any ledger and any memory, over an unchanging snapshot that prices every
      diverged symbol, in verified mode, with increasing stamps and no fills: after two passes every
      account net is the venue's, after four the net cash agrees at the venue's unit too, and no
      later pass heals anything. */
  lemma HealsConverge(c: Cycle, v: Venue, times: seq<int>)
    requires v.quantum > 0.0 && Ordered(c, times) && Priced(c.book.ledger, v)
    ensures |times| >= 2 ==> forall s :: AccountNet(Passes(c, v, times).book.ledger, s) == VenueSize(v, s)
    ensures |times| >= 4 ==>
      && F.Quantize(NetCash(Passes(c, v, times).book.ledger), v.quantum) == F.Quantize(VenueNetCash(v), v.quantum)
      && Passes(c, v, times).book == Passes(c, v, times[..4]).book
  {
    hide Pass, AccountNet, NetCash, ComparedNet, VenueNetCash, F.Quantize;
    if |times| >= 2 {
      var c2 := Passes(c, v, times[..2]);
      SizesInTwo(c, v, times);
      PassesSplit(c, v, times, 2);
      SizesStay(c2, v, times[2..]);
      DivergedReads(Passes(c, v, times).book.ledger, v);
      if |times| >= 4 {
        CashSettles(c2, v, times[2..]);
        PassesSplit(c, v, times[..4], 2);
        assert times[..4][..2] == times[..2] && times[..4][2..] == times[2..][..2];
        PassesSplit(c, v, times, 4);
        AgreedStays(Passes(c, v, times[..4]), v, times[4..]);
        ComparedIsNetCash(Passes(c, v, times).book.ledger, v);
      }
    }
  }

  lemma {:induction false} UnpricedStays(c: Cycle, v: Venue, times: seq<int>, s: Symbol)
    requires v.quantum > 0.0 && Ordered(c, times) && s in Diverged(c.book.ledger, v) && Price(v, s).None?
    ensures s in Diverged(Passes(c, v, times).book.ledger, v)
    ensures AccountNet(Passes(c, v, times).book.ledger, s) == AccountNet(c.book.ledger, s)
    decreases times
  {
    hide Pass, Diverged, AccountNet;
    if times != [] {
      PassLaw(c, v, times[0]);
      OnePass(c, v, times);
      UnpricedStays(Pass(c, v, times[0], {}, true), v, times[1..], s);
    }
  }

  /** The entry price is exactly what convergence of the sizes turns on: with one diverged symbol the
      venue posts none for, no number of passes closes it. */
  lemma SizesConvergeIffPriced(c: Cycle, v: Venue, times: seq<int>)
    requires v.quantum > 0.0 && Ordered(c, times) && |times| >= 2
    ensures (forall s :: AccountNet(Passes(c, v, times).book.ledger, s) == VenueSize(v, s)) <==>
      Priced(c.book.ledger, v)
  {
    hide Pass, AccountNet, Diverged;
    DivergedReads(Passes(c, v, times).book.ledger, v);
    if Priced(c.book.ledger, v) {
      HealsConverge(c, v, times);
    } else {
      var s :| s in Diverged(c.book.ledger, v) && Price(v, s).None?;
      UnpricedStays(c, v, times, s);
    }
  }

  // ----- What a settled ledger is worth -----

  function SizeIn(m: map<Symbol, VenuePos>, s: Symbol): real {
    if s in m then m[s].size else 0.0
  }

  function VenueValue(m: map<Symbol, VenuePos>, marks: Marks, symbols: seq<Symbol>): real {
    if symbols == [] then 0.0
    else Notional(SizeIn(m, symbols[0]), marks(symbols[0])) + VenueValue(m, marks, symbols[1..])
  }

  // The venue's notionals are its sizes at its own marks.
  ghost predicate MarkedAt(v: Venue, marks: Marks) {
    forall s :: s in v.positions ==> SignedNotional(v.positions[s]) == Notional(v.positions[s].size, marks(s))
  }

  lemma {:induction false} VenueValueSkips(m: map<Symbol, VenuePos>, marks: Marks, symbols: seq<Symbol>, s: Symbol)
    requires s !in symbols
    ensures VenueValue(m - {s}, marks, symbols) == VenueValue(m, marks, symbols)
  {
    if symbols != [] {
      VenueValueSkips(m, marks, symbols[1..], s);
    }
  }

  lemma {:induction false} VenueValueSums(m: map<Symbol, VenuePos>, marks: Marks, symbols: seq<Symbol>)
    requires Distinct(symbols) && forall s :: s in m ==> s in symbols
    requires forall s :: s in m ==> SignedNotional(m[s]) == Notional(m[s].size, marks(s))
    ensures SumMap(m, VenueNotional) == VenueValue(m, marks, symbols)
    decreases symbols
  {
    hide Notional, SignedNotional;
    if symbols == [] {
      assert m == map[] by {
        assert m.Keys == {};
      }
    } else {
      var s, rest := symbols[0], symbols[1..];
      NotionalAdds(0.0, 0.0, marks(s));
      if s in m {
        SumMapRemove(m, VenueNotional, s);
        VenueValueSums(m - {s}, marks, rest);
        VenueValueSkips(m, marks, rest, s);
      } else {
        VenueValueSums(m, marks, rest);
      }
    }
  }

  lemma {:induction false} SameValues(l: Ledger, m: map<Symbol, VenuePos>, marks: Marks, symbols: seq<Symbol>)
    requires forall s :: AccountNet(l, s) == SizeIn(m, s)
    ensures NetValue(l, marks, symbols) == VenueValue(m, marks, symbols)
  {
    if symbols != [] {
      SameValues(l, m, marks, symbols[1..]);
    }
  }

  /** A ledger whose nets are the venue's and whose net cash agrees at the venue's unit reports the
      venue's equity at the venue's marks, to within that unit. */
  lemma SettledEquity(l: Ledger, v: Venue, marks: Marks)
    requires v.quantum > 0.0 && MarkedAt(v, marks)
    requires forall s :: AccountNet(l, s) == VenueSize(v, s)
    requires F.Quantize(NetCash(l), v.quantum) == F.Quantize(VenueNetCash(v), v.quantum)
    ensures AbsR(Equity(l, marks) - v.equity) <= v.quantum
  {
    hide NetCash, AccountNet, Equity, F.Quantize, VenueNetCash, Notional;
    var symbols := Enumerate((set k | k in l.positions :: k.symbol) + v.positions.Keys);
    EquityLaw(l, marks, symbols);
    VenueNetCashIsEquity(v);
    VenueValueSums(v.positions, marks, symbols);
    SameValues(l, v.positions, marks, symbols);
    F.QuantizeNear(NetCash(l), v.quantum);
    F.QuantizeNear(VenueNetCash(v), v.quantum);
  }
}
