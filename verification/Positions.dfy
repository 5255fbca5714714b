// One partition's average-cost ledger.

module Positions {
  import opened Domain

  // The identity of a fact that may book into a partition. Each constructor stands for one of the
  // id formats, which are injective in their parts.
  datatype EventId =
    | FillId(cloid: string, trade: string)
    | PieceId(cloid: string, trade: string, owner: Owner)
    | LeftoverId(symbol: Symbol, ts: int, owner: Owner)
    | ReconcileId(symbol: Symbol, ts: int)

  datatype Change = Opened | Changed | Closed

  datatype Pos = Pos(size: real, entry: real, realized: real, fees: real, funding: real)

  const FRESH := Pos(0.0, 0.0, 0.0, 0.0, 0.0)

  // A fill as a partition reads it. `quantity` is a magnitude; the direction rides beside it.
  datatype PartitionFill = PartitionFill(id: EventId, key: Key, quantity: real, price: real, fee: real)

  datatype Outcome = Refused | Duplicate | Applied(changes: seq<Change>)

  function SignedQuantity(quantity: real, side: Side): real {
    if side.Buy? then quantity else -quantity
  }

  predicate SameSide(size: real, signed: real) {
    (size > 0.0) == (signed > 0.0)
  }

  // The notional-weighted mean of two entries.
  function Mean(entry: real, size: real, price: real, added: real): real
    requires size + added != 0.0
  {
    (entry * size + price * added) / (size + added)
  }

  // What closing `closed` of an exposure realizes, signed with that exposure.
  function Gain(price: real, entry: real, closed: real, direction: real): real {
    (price - entry) * closed * direction
  }

  // The four regimes: open, add, reduce or close, flip.
  function BookPos(p: Pos, signed: real, price: real): Pos {
    if p.size == 0.0 then p.(size := signed, entry := price)
    else if SameSide(p.size, signed) then
      var size, added := AbsR(p.size), AbsR(signed);
      if size + added == 0.0 then p else
      p.(entry := Mean(p.entry, size, price, added), size := p.size + signed)
    else
      var closed := Min(AbsR(p.size), AbsR(signed));
      var direction := if p.size > 0.0 then 1.0 else -1.0;
      var remaining := p.size + signed;
      var q := p.(realized := p.realized + Gain(price, p.entry, closed, direction), size := remaining);
      if remaining == 0.0 then q.(entry := 0.0)
      else if (remaining > 0.0) == (direction > 0.0) then q
      else q.(entry := price)
  }

  function ChangesOf(p: Pos, signed: real): seq<Change> {
    if p.size == 0.0 then [Opened]
    else if SameSide(p.size, signed) then [Changed]
    else if p.size + signed == 0.0 then [Closed]
    else if SameSide(p.size, p.size + signed) then [Changed]
    else [Closed, Opened]
  }

  function Notional(signed: real, price: real): real {
    signed * price
  }

  // The open exposure marked to `mark`.
  function UnrealizedPnl(p: Pos, mark: real): real {
    p.size * (mark - p.entry)
  }

  function Basis(p: Pos): real {
    p.size * p.entry
  }

  lemma AddBasis(size: real, entry: real, signed: real, price: real)
    requires size != 0.0 && signed != 0.0 && SameSide(size, signed)
    ensures AbsR(size) + AbsR(signed) > 0.0
    ensures (size + signed) * ((entry * AbsR(size) + price * AbsR(signed)) / (AbsR(size) + AbsR(signed)))
         == size * entry + signed * price
  {
    var total := AbsR(size) + AbsR(signed);
    var num := entry * AbsR(size) + price * AbsR(signed);
    assert num / total * total == num;
    if size > 0.0 {
      assert size + signed == total;
    } else {
      assert size + signed == -total;
    }
  }

  lemma CloseBasis(size: real, entry: real, signed: real, price: real)
    requires size != 0.0 && signed != 0.0 && !SameSide(size, signed)
    ensures var closed := Min(AbsR(size), AbsR(signed)); var direction := if size > 0.0 then 1.0 else -1.0;
      (price - entry) * closed * direction
        == if AbsR(signed) <= AbsR(size) then (price - entry) * -signed else (price - entry) * size
  {}

  // What closing part of an exposure, all of it, or more than it realizes against its cost basis.
  lemma ReduceLaw(p: Pos, signed: real, price: real)
    requires signed != 0.0 && p.size != 0.0 && !SameSide(p.size, signed)
    ensures var q := BookPos(p, signed, price);
      q.realized - Basis(q) == p.realized - Basis(p) - Notional(signed, price)
  {
    hide Gain;
    GainReads(p, signed, price);
    var q := BookPos(p, signed, price);
    if AbsR(signed) <= AbsR(p.size) {
      assert q.realized == p.realized + (price - p.entry) * -signed;
      KeptBasis(p.size, p.entry, signed, price);
    } else {
      assert q.realized == p.realized + (price - p.entry) * p.size;
      FlippedBasis(p.size, p.entry, signed, price);
    }
  }

  lemma GainReads(p: Pos, signed: real, price: real)
    requires signed != 0.0 && p.size != 0.0 && !SameSide(p.size, signed)
    ensures Gain(price, p.entry, Min(AbsR(p.size), AbsR(signed)), if p.size > 0.0 then 1.0 else -1.0)
         == if AbsR(signed) <= AbsR(p.size) then (price - p.entry) * -signed else (price - p.entry) * p.size
  {
    CloseBasis(p.size, p.entry, signed, price);
  }

  lemma KeptBasis(size: real, entry: real, signed: real, price: real)
    ensures (price - entry) * -signed - (size + signed) * entry == 0.0 - size * entry - signed * price
  {
    assert (price - entry) * -signed == entry * signed - price * signed;
    assert (size + signed) * entry == size * entry + signed * entry;
  }

  lemma FlippedBasis(size: real, entry: real, signed: real, price: real)
    ensures (price - entry) * size - (size + signed) * price == 0.0 - size * entry - signed * price
  {
    assert (price - entry) * size == price * size - entry * size;
    assert (size + signed) * price == size * price + signed * price;
  }

  /** The reducer's law. Size adds; what realized PnL and cost basis move together is the traded
      notional; only a reduction realizes; a reduction keeps the entry, a flip restarts it at the
      fill price and a close clears it. With conservation these fix every field. */
  lemma BookLaw(p: Pos, signed: real, price: real)
    requires signed != 0.0
    ensures var q := BookPos(p, signed, price);
      && q.size == p.size + signed
      && q.fees == p.fees && q.funding == p.funding
      && q.realized - Basis(q) == p.realized - Basis(p) - Notional(signed, price)
      && (p.size == 0.0 || SameSide(p.size, signed) ==> q.realized == p.realized)
      && (p.size != 0.0 && !SameSide(p.size, signed) ==>
            if q.size == 0.0 then q.entry == 0.0
            else if SameSide(p.size, q.size) then q.entry == p.entry else q.entry == price)
  {
    hide Gain;
    if p.size != 0.0 {
      if SameSide(p.size, signed) {
        AddBasis(p.size, p.entry, signed, price);
      } else {
        ReduceLaw(p, signed, price);
      }
    }
  }

  /** What a fill announces is what it did to the exposure: closed where the old one is gone, opened
      where there is a new one, a close ahead of the open behind it, changed where it goes on. */
  lemma ChangesLaw(p: Pos, signed: real, price: real)
    requires signed != 0.0
    ensures var q, c := BookPos(p, signed, price), ChangesOf(p, signed);
      var kept := p.size != 0.0 && q.size != 0.0 && (p.size > 0.0) == (q.size > 0.0);
      && (Closed in c <==> p.size != 0.0 && !kept)
      && (Opened in c <==> q.size != 0.0 && !kept)
      && (Changed in c <==> kept)
      && (|c| == 1 || c == [Closed, Opened])
  {
    BookLaw(p, signed, price);
  }

  lemma BasisReads(p: Pos, fees: real)
    ensures Basis(p.(fees := fees)) == Basis(p) && Basis(FRESH) == 0.0
  {}

  class Position {
    const key: Key
    var signedSize: real
    var entryPrice: real
    var realizedPnl: real
    var fees: real
    var funding: real
    var applied: set<EventId>

    function View(): Pos
      reads this
    {
      Pos(signedSize, entryPrice, realizedPnl, fees, funding)
    }

    constructor (key: Key)
      ensures this.key == key && View() == FRESH && applied == {}
    {
      this.key := key;
      signedSize, entryPrice, realizedPnl, fees, funding := 0.0, 0.0, 0.0, 0.0, 0.0;
      applied := {};
    }

    // A position read back from the store: its dedup set did not survive.
    constructor Restored(key: Key, view: Pos)
      ensures this.key == key && View() == view && applied == {}
    {
      this.key := key;
      signedSize, entryPrice, realizedPnl := view.size, view.entry, view.realized;
      fees, funding := view.fees, view.funding;
      applied := {};
    }

    // Fold one fill. A misrouted fill or a non-positive quantity is refused ahead of the dedup,
    // so a refusal spends no id; a redelivery changes nothing.
    method Apply(event: PartitionFill, side: Side) returns (r: Outcome)
      modifies this
      ensures r.Refused? <==> event.key != key || event.quantity <= 0.0
      ensures r.Duplicate? <==> !r.Refused? && event.id in old(applied)
      ensures !r.Applied? ==> View() == old(View()) && applied == old(applied)
      ensures r.Applied? ==>
        var signed := SignedQuantity(event.quantity, side);
        && applied == old(applied) + {event.id}
        && View() == BookPos(old(View()).(fees := old(fees) + event.fee), signed, event.price)
        && r.changes == ChangesOf(old(View()), signed)
    {
      if event.key != key || event.quantity <= 0.0 {
        return Refused;
      }
      if event.id in applied {
        return Duplicate;
      }
      applied := applied + {event.id};
      fees := fees + event.fee;
      var changes := Book(SignedQuantity(event.quantity, side), event.price);
      return Applied(changes);
    }

    method Book(signed: real, price: real) returns (changes: seq<Change>)
      requires signed != 0.0
      modifies `signedSize, `entryPrice, `realizedPnl
      ensures View() == BookPos(old(View()), signed, price)
      ensures changes == ChangesOf(old(View()), signed)
    {
      hide Mean, Gain;
      if signedSize == 0.0 {
        signedSize := signed;
        entryPrice := price;
        return [Opened];
      }
      if (signedSize > 0.0) == (signed > 0.0) {
        var size, added := AbsR(signedSize), AbsR(signed);
        entryPrice := Mean(entryPrice, size, price, added);
        signedSize := signedSize + signed;
        return [Changed];
      }
      var closed := Min(AbsR(signedSize), AbsR(signed));
      var direction := if signedSize > 0.0 then 1.0 else -1.0;
      realizedPnl := realizedPnl + Gain(price, entryPrice, closed, direction);
      var remaining := signedSize + signed;
      signedSize := remaining;
      if remaining == 0.0 {
        entryPrice := 0.0;
        return [Closed];
      }
      if (remaining > 0.0) == (direction > 0.0) {
        return [Changed];
      }
      entryPrice := price;
      return [Closed, Opened];
    }

    method AccrueFunding(amount: real)
      modifies `funding
      ensures funding == old(funding) + amount
    {
      funding := funding + amount;
    }
  }
}
