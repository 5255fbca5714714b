// Moving the strategies' sizes on a symbol the venue reads flat into the unattributed partition
// (`Checkpointer.checkpoint_leftover`). Event ids are taken as new: each carries the move's stamp.

module Leftover {
  import opened Domain
  import opened Sums
  import opened Positions
  import opened Ledger

  predicate Leaves(l: Ledger, s: Symbol, owner: Owner) {
    owner.Strategy? && At(l, Key(owner, s)).size != 0.0
  }

  // Each strategy leaves at its own entry price.
  function Closings(l: Ledger, s: Symbol, owners: seq<Owner>): seq<Fill> {
    if owners == [] then [] else
      var rest := Closings(l, s, owners[..|owners| - 1]);
      var key := Key(owners[|owners| - 1], s);
      if Leaves(l, s, key.owner) then rest + [Fill(key, -At(l, key).size, At(l, key).entry, 0.0)] else rest
  }

  function MovedSize(l: Ledger, s: Symbol, owners: seq<Owner>): real {
    if owners == [] then 0.0 else
      var last := owners[|owners| - 1];
      MovedSize(l, s, owners[..|owners| - 1]) + if Leaves(l, s, last) then At(l, Key(last, s)).size else 0.0
  }

  function MovedCost(l: Ledger, s: Symbol, owners: seq<Owner>): real {
    if owners == [] then 0.0 else
      var last := owners[|owners| - 1];
      MovedCost(l, s, owners[..|owners| - 1]) + if Leaves(l, s, last) then Basis(At(l, Key(last, s))) else 0.0
  }

  // The closings, and their total opposite them in one fill that keeps their summed cost basis.
  function LeftoverFills(l: Ledger, s: Symbol, owners: seq<Owner>): seq<Fill> {
    var moved, cost := MovedSize(l, s, owners), MovedCost(l, s, owners);
    Closings(l, s, owners) + if moved == 0.0 then [] else [Fill(Key(Unattributed, s), moved, cost / moved, 0.0)]
  }

  method LeftoverPieces(l: Ledger, s: Symbol, owners: seq<Owner>) returns (pieces: seq<Fill>)
    ensures pieces == LeftoverFills(l, s, owners)
  {
    pieces := [];
    var moved, cost := 0.0, 0.0;
    for i := 0 to |owners|
      invariant pieces == Closings(l, s, owners[..i])
      invariant moved == MovedSize(l, s, owners[..i]) && cost == MovedCost(l, s, owners[..i])
    {
      assert owners[..i + 1][..i] == owners[..i];
      var p := At(l, Key(owners[i], s));
      if owners[i].Strategy? && p.size != 0.0 {
        pieces := pieces + [Fill(Key(owners[i], s), -p.size, p.entry, 0.0)];
        moved := moved + p.size;
        cost := cost + p.size * p.entry;
      }
    }
    assert owners[..|owners|] == owners;
    if moved != 0.0 {
      pieces := pieces + [Fill(Key(Unattributed, s), moved, cost / moved, 0.0)];
    }
  }

  lemma CloseAtEntry(l: Ledger, key: Key)
    requires At(l, key).size != 0.0
    ensures var p := At(l, key);
      BookFill(l, Fill(key, -p.size, p.entry, 0.0)) == Ledger(l.cash, l.positions[key := p.(size := 0.0, entry := 0.0)])
  {
    var p := At(l, key);
    assert Gain(p.entry, p.entry, AbsR(p.size), if p.size > 0.0 then 1.0 else -1.0) == 0.0;
  }

  lemma {:induction false} BookAllAppend(l: Ledger, a: seq<Fill>, f: Fill)
    ensures BookAll(l, a + [f]) == BookFill(BookAll(l, a), f)
    decreases a
  {
    hide BookFill;
    if a != [] {
      BookAllAppend(BookFill(l, a[0]), a[1..], f);
      assert (a + [f])[1..] == a[1..] + [f];
    } else {
      assert BookAll(l, [f]) == BookAll(BookFill(l, f), []);
    }
  }

  // The closings book no realized PnL and no cash: they only give up the cost they carried.
  lemma {:induction false} ClosingsLaw(l: Ledger, s: Symbol, owners: seq<Owner>)
    requires Distinct(owners)
    ensures var r := BookAll(l, Closings(l, s, owners));
      && r.cash == l.cash
      && NetCash(r) == NetCash(l) + MovedCost(l, s, owners)
      && (forall t :: AccountNet(r, t) == AccountNet(l, t) - if t == s then MovedSize(l, s, owners) else 0.0)
      && (forall key :: At(r, key) ==
            if key.symbol == s && key.owner in owners && Leaves(l, s, key.owner)
            then At(l, key).(size := 0.0, entry := 0.0) else At(l, key))
  {
    hide BookFill, NetCash, AccountNet, Notional;
    if owners != [] {
      var init, last := owners[..|owners| - 1], owners[|owners| - 1];
      ClosingsLaw(l, s, init);
      if Leaves(l, s, last) {
        var r, key := BookAll(l, Closings(l, s, init)), Key(last, s);
        assert At(r, key) == At(l, key);
        var p := At(r, key);
        BookAllAppend(l, Closings(l, s, init), Fill(key, -p.size, p.entry, 0.0));
        CloseAtEntry(r, key);
        BookFillLaw(r, Fill(key, -p.size, p.entry, 0.0));
        SoldBasis(p);
      }
    }
  }

  lemma SoldBasis(p: Pos)
    ensures Notional(-p.size, p.entry) == -Basis(p)
  {}

  predicate CashStays(l: Ledger, s: Symbol, owners: seq<Owner>) {
    var moved, u := MovedSize(l, s, owners), At(l, Key(Unattributed, s));
    moved == 0.0 || u.size == 0.0 || SameSide(u.size, moved) || MovedCost(l, s, owners) / moved == u.entry
  }

  lemma PieceCash(l: Ledger, key: Key, signed: real, price: real)
    requires signed != 0.0
    ensures var u := At(l, key);
      BookFill(l, Fill(key, signed, price, 0.0)).cash == l.cash <==>
        u.size == 0.0 || SameSide(u.size, signed) || price == u.entry
  {
    var u := At(l, key);
    if u.size != 0.0 && !SameSide(u.size, signed) {
      var closed := Min(AbsR(u.size), AbsR(signed));
      CloseBasis(u.size, u.entry, signed, price);
      var direction := if u.size > 0.0 then 1.0 else -1.0;
      GainVanishes(price, u.entry, closed, direction);
    }
  }

  lemma GainVanishes(price: real, entry: real, closed: real, direction: real)
    requires closed > 0.0 && (direction == 1.0 || direction == -1.0)
    ensures Gain(price, entry, closed, direction) == 0.0 <==> price == entry
  {
    if price > entry {
      assert (price - entry) * closed > 0.0;
    } else if price < entry {
      assert (entry - price) * closed > 0.0;
      assert (price - entry) * closed == -((entry - price) * closed);
    }
  }

  lemma CostBack(moved: real, cost: real)
    requires moved != 0.0
    ensures Notional(moved, cost / moved) == cost
  {}

  /** The leftover move. No account net moves and no strategy realizes anything; every strategy ends
      flat and the unattributed partition holds the sum. Net cash is kept whenever the moved sizes
      do not sum to zero, and otherwise shifts by exactly the dropped cost. */
  lemma LeftoverLaw(l: Ledger, s: Symbol, owners: seq<Owner>)
    requires Distinct(owners)
    ensures var r := BookAll(l, LeftoverFills(l, s, owners));
      && (forall t :: AccountNet(r, t) == AccountNet(l, t))
      && NetCash(r) == NetCash(l) + (if MovedSize(l, s, owners) == 0.0 then MovedCost(l, s, owners) else 0.0)
      && (forall key: Key :: key.owner.Strategy? ==>
            && At(r, key).realized == At(l, key).realized
            && At(r, key).size == if key.symbol == s && key.owner in owners then 0.0 else At(l, key).size)
      && At(r, Key(Unattributed, s)).size == At(l, Key(Unattributed, s)).size + MovedSize(l, s, owners)
      && (forall key: Key :: key.symbol != s ==> At(r, key) == At(l, key))
  {
    hide NetCash, AccountNet, Notional, BookPos, MovedSize, MovedCost, Closings;
    ClosingsLaw(l, s, owners);
    var moved, cost := MovedSize(l, s, owners), MovedCost(l, s, owners);
    var r := BookAll(l, Closings(l, s, owners));
    if moved != 0.0 {
      var f := Fill(Key(Unattributed, s), moved, cost / moved, 0.0);
      BookAllAppend(l, Closings(l, s, owners), f);
      BookFillLaw(r, f);
      CostBack(moved, cost);
      var u := At(r, f.key);
      BookLaw(u.(fees := u.fees + 0.0), moved, cost / moved);
    } else {
      assert Closings(l, s, owners) + [] == Closings(l, s, owners);
    }
  }

  /** When cash itself stays: exactly when the moved sizes cancel, or the unattributed side is flat,
      or on the same side, or was entered at that fill's own price. */
  lemma LeftoverCash(l: Ledger, s: Symbol, owners: seq<Owner>)
    requires Distinct(owners)
    ensures BookAll(l, LeftoverFills(l, s, owners)).cash == l.cash <==> CashStays(l, s, owners)
  {
    hide BookFill, Closings, MovedSize, MovedCost;
    ClosingsLaw(l, s, owners);
    var moved, cost := MovedSize(l, s, owners), MovedCost(l, s, owners);
    if moved != 0.0 {
      BookAllAppend(l, Closings(l, s, owners), Fill(Key(Unattributed, s), moved, cost / moved, 0.0));
      PieceCash(BookAll(l, Closings(l, s, owners)), Key(Unattributed, s), moved, cost / moved);
    } else {
      assert Closings(l, s, owners) + [] == Closings(l, s, owners);
    }
  }

  // A strategy long 1 at 90 against an unattributed short 1 at 100: the move books 10 of cash.
  lemma LeftoverMovesCash(s: Symbol)
    ensures var a := Strategy("a");
      var l := Ledger(0.0, map[Key(a, s) := Pos(1.0, 90.0, 0.0, 0.0, 0.0),
                               Key(Unattributed, s) := Pos(-1.0, 100.0, 0.0, 0.0, 0.0)]);
      BookAll(l, LeftoverFills(l, s, [a])).cash == 10.0
  {
    var a := Strategy("a");
    var l := Ledger(0.0, map[Key(a, s) := Pos(1.0, 90.0, 0.0, 0.0, 0.0),
                             Key(Unattributed, s) := Pos(-1.0, 100.0, 0.0, 0.0, 0.0)]);
    var owners := [a];
    assert owners[..0] == [];
    assert Basis(At(l, Key(a, s))) == 90.0;
    assert MovedSize(l, s, owners) == 1.0;
    assert MovedCost(l, s, owners) == MovedCost(l, s, owners[..0]) + 90.0;
    var out := Fill(Key(a, s), -1.0, 90.0, 0.0);
    assert Closings(l, s, owners) == [out];
    var into := Fill(Key(Unattributed, s), 1.0, 90.0, 0.0);
    assert LeftoverFills(l, s, owners) == [out] + [into];
    BookAllAppend(l, [out], into);
    assert BookAll(l, [out]) == BookFill(l, out) by {
      BookAllAppend(l, [], out);
      assert [] + [out] == [out];
    }
    CloseAtEntry(l, Key(a, s));
    assert Gain(90.0, 100.0, 1.0, -1.0) == 10.0;
  }
}
