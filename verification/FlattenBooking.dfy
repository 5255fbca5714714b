// Booking a flatten order through its split (`Checkpointer._split`).

module FlattenBooking {
  import opened Domain
  import opened Sums
  import opened Positions
  import opened Ledger
  import F = FlattenSplit

  function Coins(lots: int, lot: real): real {
    lots as real * lot
  }

  // One ledger fill per move: the signed size in coins, at the fill's price.
  function Pieces(s: Symbol, moves: seq<F.Move>, lot: real, price: real): (fills: seq<Fill>)
    ensures |fills| == |moves|
  {
    if moves == [] then [] else
      [Fill(Key(moves[0].owner, s), Coins(moves[0].size, lot), price, moves[0].fee)]
      + Pieces(s, moves[1..], lot, price)
  }

  lemma {:induction false} PiecesTotals(s: Symbol, moves: seq<F.Move>, lot: real, price: real)
    requires lot > 0.0 && forall k :: 0 <= k < |moves| ==> moves[k].size != 0
    ensures var fills := Pieces(s, moves, lot, price);
      && OneTrade(fills, s, price)
      && SignedTotal(fills) == Coins(Sum(F.MoveSizes(moves)), lot)
      && FeeTotal(fills) == SumR(F.MoveFees(moves))
  {
    if moves != [] {
      PiecesTotals(s, moves[1..], lot, price);
      assert F.MoveSizes(moves)[1..] == F.MoveSizes(moves[1..]);
      assert F.MoveFees(moves)[1..] == F.MoveFees(moves[1..]);
      LotsAdd(moves[0].size, Sum(F.MoveSizes(moves[1..])), lot);
    }
  }

  lemma LotsAdd(a: int, b: int, lot: real)
    ensures Coins(a + b, lot) == Coins(a, lot) + Coins(b, lot)
    ensures lot > 0.0 && a != 0 ==> Coins(a, lot) != 0.0
    ensures Coins(0, lot) == 0.0 && Coins(1, lot) == lot
  {}

  lemma SplitMovesNonzero(basis: F.Basis, cum: nat, quantity: nat, fee: real, step: real)
    requires quantity <= cum && step > 0.0
    ensures var r := F.Split(basis, cum, quantity, fee, step);
      r.Ok? ==>
        var moved := F.Moved(basis, F.PieceSizes(basis, cum, quantity));
        && |r.value| == |moved|
        && forall k :: 0 <= k < |moved| ==>
             r.value[k].size == moved[k].lots != 0 && r.value[k].owner == moved[k].owner
  {
    hide F.PieceSizes, F.SplitFee;
  }

  // The signed lots a fill of `quantity` trades against the net of `basis`.
  function SignedLots(basis: F.Basis, quantity: nat): int {
    if F.Net(basis) > 0 then 0 - quantity else quantity
  }

  // ----- A whole flatten order -----

  datatype FlatFill = FlatFill(quantity: nat, price: real, fee: real)

  function Quantities(fills: seq<FlatFill>): (q: seq<nat>)
    ensures |q| == |fills|
    ensures forall i :: 0 <= i < |q| ==> q[i] == fills[i].quantity
  {
    seq(|fills|, i requires 0 <= i < |fills| => fills[i].quantity)
  }

  function BookFlatten(l: Ledger, s: Symbol, basis: F.Basis, fills: seq<FlatFill>, lot: real, step: real): Ledger
    requires step > 0.0
  {
    if fills == [] then l else
      var f := fills[|fills| - 1];
      var before := BookFlatten(l, s, basis, fills[..|fills| - 1], lot, step);
      var cum := F.Total(Quantities(fills));
      assert Quantities(fills)[|fills| - 1] == f.quantity;
      match F.Split(basis, cum, f.quantity, f.fee, step)
      case Ok(moves) => BookAll(before, Pieces(s, moves, lot, f.price))
      case Err(_) => before
  }

  function LotsOn(moves: seq<F.Move>, owner: Owner): int {
    if moves == [] then 0
    else (if moves[0].owner == owner then moves[0].size else 0) + LotsOn(moves[1..], owner)
  }

  lemma {:induction false} PiecesOn(s: Symbol, moves: seq<F.Move>, lot: real, price: real, owner: Owner)
    ensures SignedOn(Pieces(s, moves, lot, price), Key(owner, s)) == Coins(LotsOn(moves, owner), lot)
  {
    if moves != [] {
      PiecesOn(s, moves[1..], lot, price, owner);
      LotsAdd(if moves[0].owner == owner then moves[0].size else 0, LotsOn(moves[1..], owner), lot);
    }
  }

  lemma {:induction false} NotMoved(basis: F.Basis, sizes: seq<int>, moves: seq<F.Move>, owner: Owner)
    requires |basis| == |sizes| && |moves| == |F.Moved(basis, sizes)|
    requires forall k :: 0 <= k < |moves| ==> moves[k].owner == F.Moved(basis, sizes)[k].owner
    requires forall j :: 0 <= j < |basis| ==> basis[j].owner != owner
    ensures LotsOn(moves, owner) == 0
  {
    if basis != [] {
      NotMoved(basis[1..], sizes[1..], if sizes[0] == 0 then moves else moves[1..], owner);
    }
  }

  lemma {:induction false} MovedOn(basis: F.Basis, sizes: seq<int>, moves: seq<F.Move>, i: nat)
    requires |basis| == |sizes| && |moves| == |F.Moved(basis, sizes)| && i < |basis| && F.DistinctOwners(basis)
    requires forall k :: 0 <= k < |moves| ==>
               moves[k].owner == F.Moved(basis, sizes)[k].owner && moves[k].size == F.Moved(basis, sizes)[k].lots
    ensures LotsOn(moves, basis[i].owner) == sizes[i]
  {
    var rest := if sizes[0] == 0 then moves else moves[1..];
    if i == 0 {
      NotMoved(basis[1..], sizes[1..], rest, basis[0].owner);
    } else {
      MovedOn(basis[1..], sizes[1..], rest, i - 1);
    }
  }

  // What one fill's pieces do to a partition of the basis.
  lemma SplitSizes(l: Ledger, s: Symbol, basis: F.Basis, cum: nat, f: FlatFill, lot: real, step: real, i: nat)
    requires step > 0.0 && lot > 0.0 && i < |basis| && F.DistinctOwners(basis)
    requires F.Net(basis) != 0 && 0 < f.quantity <= cum <= Abs(F.Net(basis))
    ensures F.Split(basis, cum, f.quantity, f.fee, step).Ok?
    ensures var moves := F.Split(basis, cum, f.quantity, f.fee, step).value; var key := Key(basis[i].owner, s);
      At(BookAll(l, Pieces(s, moves, lot, f.price)), key).size
        == At(l, key).size + Coins(F.PieceSizes(basis, cum, f.quantity)[i], lot)
  {
    hide F.Split, F.Net, BookAll, F.PieceSizes, Coins, F.DistinctOwners;
    F.SplitLaw(basis, cum, f.quantity, f.fee, step);
    SplitMovesNonzero(basis, cum, f.quantity, f.fee, step);
    var moves := F.Split(basis, cum, f.quantity, f.fee, step).value;
    PiecesTotals(s, moves, lot, f.price);
    SizeAfter(l, Pieces(s, moves, lot, f.price), Key(basis[i].owner, s));
    PiecesOn(s, moves, lot, f.price, basis[i].owner);
    MovedOn(basis, F.PieceSizes(basis, cum, f.quantity), moves, i);
  }

  lemma {:induction false} FlattenSizes(l: Ledger, s: Symbol, basis: F.Basis, fills: seq<FlatFill>,
                                        lot: real, step: real, i: nat)
    requires step > 0.0 && lot > 0.0 && i < |basis| && F.DistinctOwners(basis)
    requires F.Net(basis) != 0 && F.Total(Quantities(fills)) <= Abs(F.Net(basis))
    requires forall k :: 0 <= k < |fills| ==> fills[k].quantity > 0
    ensures At(BookFlatten(l, s, basis, fills, lot, step), Key(basis[i].owner, s)).size
         == At(l, Key(basis[i].owner, s)).size
          + Coins(F.BookFills(basis, Quantities(fills))[i] - basis[i].lots, lot)
  {
    hide F.Split, F.Net, BookAll, F.PieceSizes, Coins, F.TotalMoves;
    LotsAdd(0, 0, lot);
    if fills != [] {
      var f, q := fills[|fills| - 1], Quantities(fills);
      assert Quantities(fills[..|fills| - 1]) == q[..|q| - 1];
      FlattenSizes(l, s, basis, fills[..|fills| - 1], lot, step, i);
      var before := BookFlatten(l, s, basis, fills[..|fills| - 1], lot, step);
      SplitSizes(before, s, basis, F.Total(q), f, lot, step, i);
      LotsAdd(F.BookFills(basis, q[..|q| - 1])[i] - basis[i].lots, F.PieceSizes(basis, F.Total(q), f.quantity)[i], lot);
    }
  }

  /** A flatten order filled to its whole net leaves every partition of its basis flat in the
      ledger, with the net or against it, however its fills were cut. */
  lemma FlattenClosesEveryPartition(l: Ledger, s: Symbol, basis: F.Basis, fills: seq<FlatFill>, lot: real, step: real)
    requires step > 0.0 && lot > 0.0 && F.DistinctOwners(basis)
    requires forall i :: 0 <= i < |basis| ==> At(l, Key(basis[i].owner, s)).size == Coins(basis[i].lots, lot)
    requires F.Net(basis) != 0 && F.Total(Quantities(fills)) == Abs(F.Net(basis))
    requires forall k :: 0 <= k < |fills| ==> fills[k].quantity > 0
    ensures forall i :: 0 <= i < |basis| ==>
              At(BookFlatten(l, s, basis, fills, lot, step), Key(basis[i].owner, s)).size == 0.0
  {
    hide BookFlatten, F.BookFills, F.Net, F.Total, F.Held, F.TowardZero, Coins;
    F.ChoppingLaw(basis, Quantities(fills));
    forall i | 0 <= i < |basis|
      ensures At(BookFlatten(l, s, basis, fills, lot, step), Key(basis[i].owner, s)).size == 0.0
    {
      FlattenSizes(l, s, basis, fills, lot, step, i);
      LotsAdd(basis[i].lots, 0 - basis[i].lots, lot);
    }
  }

  // The same order booked as if one partition held it all.
  function BookWhole(l: Ledger, s: Symbol, whole: Owner, basis: F.Basis, fills: seq<FlatFill>, lot: real): Ledger {
    if fills == [] then l else
      var f := fills[|fills| - 1];
      BookFill(BookWhole(l, s, whole, basis, fills[..|fills| - 1], lot),
        Fill(Key(whole, s), Coins(SignedLots(basis, f.quantity), lot), f.price, f.fee))
  }

  // What one fill's pieces move the account by.
  lemma SplitWorth(l: Ledger, s: Symbol, basis: F.Basis, cum: nat, f: FlatFill, lot: real, step: real)
    requires step > 0.0 && lot > 0.0 && F.Net(basis) != 0 && 0 < f.quantity <= cum <= Abs(F.Net(basis))
    ensures F.Split(basis, cum, f.quantity, f.fee, step).Ok?
    ensures var signed := Coins(SignedLots(basis, f.quantity), lot);
      var r := BookAll(l, Pieces(s, F.Split(basis, cum, f.quantity, f.fee, step).value, lot, f.price));
      && signed != 0.0
      && NetCash(r) == NetCash(l) - Notional(signed, f.price) - f.fee
      && forall t :: AccountNet(r, t) == AccountNet(l, t) + if t == s then signed else 0.0
  {
    hide F.Split, F.Net, BookAll, NetCash, AccountNet, Coins, Notional;
    F.SplitLaw(basis, cum, f.quantity, f.fee, step);
    SplitMovesNonzero(basis, cum, f.quantity, f.fee, step);
    var moves := F.Split(basis, cum, f.quantity, f.fee, step).value;
    PiecesTotals(s, moves, lot, f.price);
    LotsAdd(SignedLots(basis, f.quantity), 0, lot);
    OneTradeLaw(l, Pieces(s, moves, lot, f.price), s, f.price);
  }

  /** Splitting preserves the meaning of a whole order: however it is cut into fills, the account net
      of every symbol, the net cash and the equity at any marks end as if each fill had been booked
      whole into one partition. */
  lemma {:induction false} FlattenPreserves(l: Ledger, s: Symbol, whole: Owner, basis: F.Basis, fills: seq<FlatFill>,
                                            lot: real, step: real)
    requires step > 0.0 && lot > 0.0 && F.Net(basis) != 0 && F.Total(Quantities(fills)) <= Abs(F.Net(basis))
    requires forall k :: 0 <= k < |fills| ==> fills[k].quantity > 0
    ensures var split, one := BookFlatten(l, s, basis, fills, lot, step), BookWhole(l, s, whole, basis, fills, lot);
      && NetCash(split) == NetCash(one)
      && (forall t :: AccountNet(split, t) == AccountNet(one, t))
      && forall marks: Marks :: Equity(split, marks) == Equity(one, marks)
  {
    hide F.Split, F.Net, BookAll, BookFill, NetCash, AccountNet, Equity, Coins, Notional;
    if fills != [] {
      var init, f, q := fills[..|fills| - 1], fills[|fills| - 1], Quantities(fills);
      assert Quantities(init) == q[..|q| - 1];
      FlattenPreserves(l, s, whole, basis, init, lot, step);
      SplitWorth(BookFlatten(l, s, basis, init, lot, step), s, basis, F.Total(q), f, lot, step);
      BookFillLaw(BookWhole(l, s, whole, basis, init, lot),
        Fill(Key(whole, s), Coins(SignedLots(basis, f.quantity), lot), f.price, f.fee));
    }
    forall marks: Marks
      ensures Equity(BookFlatten(l, s, basis, fills, lot, step), marks)
        == Equity(BookWhole(l, s, whole, basis, fills, lot), marks)
    {
      SameWorth(BookFlatten(l, s, basis, fills, lot, step), BookWhole(l, s, whole, basis, fills, lot), marks);
    }
  }
}
