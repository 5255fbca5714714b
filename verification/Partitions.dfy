// Whose partition a booking trades on: the ledger of any run, partition by partition.

module Partitions {
  import opened Domain
  import opened Positions
  import opened Ledger
  import opened Recovery
  import B = FlattenBooking
  import F = FlattenSplit
  import L = Leftover

  // How far a trade of `quantity` that brings the order to `cum` moves an owner of its basis: the change
  // in the owner's total move, and nothing for an owner the basis does not hold.
  function Share(basis: F.Basis, cum: nat, quantity: nat, owner: Owner): int
    requires F.Net(basis) != 0 && quantity <= cum <= Abs(F.Net(basis))
  {
    ShareIn(basis, F.TotalMoves(basis, cum), F.TotalMoves(basis, cum - quantity), owner)
  }

  function ShareIn(basis: F.Basis, after: seq<int>, before: seq<int>, owner: Owner): int
    requires |basis| == |after| == |before|
  {
    if basis == [] then 0
    else if basis[0].owner == owner then after[0] - before[0]
    else ShareIn(basis[1..], after[1..], before[1..], owner)
  }

  // What one booking trades on a partition. A plain order's fill trades its whole signed size on its own
  // owner's, a split one its share on each owner's of the basis; a leftover move takes each strategy's
  // size off its own and puts their sum on the unattributed one; a heal trades its fills.
  ghost function TradedOn(c: Config, log: seq<Booking>, b: Booking, key: Key): real
    requires Good(c) && c.step > 0.0 && Sequenced(c, log) && Recovery.Bookable(c, log, b)
  {
    match b
    case FillBooked(cloid, _, quantity, _, _) =>
      var t, cum := c.terms[cloid], CumIn(log, cloid) + quantity;
      if key.symbol != t.symbol then 0.0
      else if t.basis.None? then
        if key.owner != t.owner then 0.0
        else if t.side.Buy? then B.Coins(quantity, c.lot(t.symbol)) else 0.0 - B.Coins(quantity, c.lot(t.symbol))
      else if F.Net(t.basis.value) == 0 || cum > Abs(F.Net(t.basis.value)) then 0.0
      else B.Coins(Share(t.basis.value, cum, quantity, key.owner), c.lot(t.symbol))
    case FundingBooked(_, _, _) => 0.0
    case LeftoverBooked(s, _, owners) =>
      var l := Replay(c, log);
      if key.symbol != s then 0.0
      else if key.owner.Unattributed? then StrategySizes(l, s, owners)
      else if key.owner in owners then 0.0 - At(l, key).size else 0.0
    case HealBooked(_, fills, _) => SignedOn(fills, key)
  }

  // The strategies' sizes on a symbol, together.
  function StrategySizes(l: Ledger, s: Symbol, owners: seq<Owner>): real {
    if owners == [] then 0.0 else
      var last := owners[|owners| - 1];
      StrategySizes(l, s, owners[..|owners| - 1]) + if last.Strategy? then At(l, Key(last, s)).size else 0.0
  }

  ghost function TradedIn(c: Config, log: seq<Booking>, key: Key): real
    requires Good(c) && c.step > 0.0 && Sequenced(c, log)
  {
    if log == [] then 0.0 else
      TradedIn(c, log[..|log| - 1], key) + TradedOn(c, log[..|log| - 1], log[|log| - 1], key)
  }

  lemma {:induction false} SizesMoved(l: Ledger, s: Symbol, owners: seq<Owner>)
    ensures L.MovedSize(l, s, owners) == StrategySizes(l, s, owners)
  {
    if owners != [] {
      SizesMoved(l, s, owners[..|owners| - 1]);
    }
  }

  // ----- A split, owner by owner -----

  lemma {:induction false} ShareAt(basis: F.Basis, after: seq<int>, before: seq<int>, i: nat)
    requires |basis| == |after| == |before| && i < |basis| && F.DistinctOwners(basis)
    ensures ShareIn(basis, after, before, basis[i].owner) == after[i] - before[i]
  {
    if i > 0 {
      ShareAt(basis[1..], after[1..], before[1..], i - 1);
    }
  }

  lemma {:induction false} NoShare(basis: F.Basis, after: seq<int>, before: seq<int>, owner: Owner)
    requires |basis| == |after| == |before| && forall i :: 0 <= i < |basis| ==> basis[i].owner != owner
    ensures ShareIn(basis, after, before, owner) == 0
  {
    if basis != [] {
      NoShare(basis[1..], after[1..], before[1..], owner);
    }
  }

  lemma SplitShares(basis: F.Basis, cum: nat, quantity: nat, fee: real, step: real, owner: Owner)
    requires 0 < quantity <= cum <= Abs(F.Net(basis)) && F.Net(basis) != 0 && step > 0.0 && F.DistinctOwners(basis)
    ensures F.Split(basis, cum, quantity, fee, step).Ok?
    ensures B.LotsOn(F.Split(basis, cum, quantity, fee, step).value, owner) == Share(basis, cum, quantity, owner)
  {
    hide F.Split, F.Net, F.TotalMoves;
    F.SplitLaw(basis, cum, quantity, fee, step);
    B.SplitMovesNonzero(basis, cum, quantity, fee, step);
    var moves, sizes := F.Split(basis, cum, quantity, fee, step).value, F.PieceSizes(basis, cum, quantity);
    var after, before := F.TotalMoves(basis, cum), F.TotalMoves(basis, cum - quantity);
    if i :| 0 <= i < |basis| && basis[i].owner == owner {
      B.MovedOn(basis, sizes, moves, i);
      ShareAt(basis, after, before, i);
    } else {
      B.NotMoved(basis, sizes, moves, owner);
      NoShare(basis, after, before, owner);
    }
  }

  lemma {:induction false} OtherSymbol(s: Symbol, moves: seq<F.Move>, lot: real, price: real, key: Key)
    requires key.symbol != s
    ensures SignedOn(B.Pieces(s, moves, lot, price), key) == 0.0
  {
    if moves != [] {
      OtherSymbol(s, moves[1..], lot, price, key);
    }
  }

  lemma FillTrades(c: Config, cloid: string, cum: nat, quantity: nat, price: real, fee: real, key: Key)
    requires Good(c) && cloid in c.terms && !Turns(c.terms[cloid]) && 0 < quantity <= cum
    requires FillsOf(c, cloid, cum, quantity, price, fee).Some?
    ensures var t, fills := c.terms[cloid], FillsOf(c, cloid, cum, quantity, price, fee).value;
      && (t.basis.Some? ==> F.Net(t.basis.value) != 0 && cum <= Abs(F.Net(t.basis.value)))
      && SignedOn(fills, key) ==
           if key.symbol != t.symbol then 0.0
           else if t.basis.Some? then B.Coins(Share(t.basis.value, cum, quantity, key.owner), c.lot(t.symbol))
           else if key.owner != t.owner then 0.0
           else if t.side.Buy? then B.Coins(quantity, c.lot(t.symbol)) else 0.0 - B.Coins(quantity, c.lot(t.symbol))
  {
    hide F.Split, F.Net, B.Coins, Share;
    var t, fills := c.terms[cloid], FillsOf(c, cloid, cum, quantity, price, fee).value;
    var lot := c.lot(t.symbol);
    match t.basis
    case None =>
      assert SignedOn(fills, key) == (if fills[0].key == key then fills[0].signed else 0.0) + SignedOn(fills[1..], key);
    case Some(basis) =>
      var moves := F.Split(basis, cum, quantity, fee, c.step).value;
      F.SplitLaw(basis, cum, quantity, fee, c.step);
      if key.symbol != t.symbol {
        OtherSymbol(t.symbol, moves, lot, price, key);
      } else {
        B.PiecesOn(t.symbol, moves, lot, price, key.owner);
        SplitShares(basis, cum, quantity, fee, c.step, key.owner);
        assert Key(key.owner, t.symbol) == key;
      }
  }

  // ----- The ledger of a log -----

  lemma FundingSizes(l: Ledger, s: Symbol, amount: real, key: Key)
    ensures At(BookFunding(l, s, amount), key).size == At(l, key).size
  {
    hide AccountNet;
    FundingEach(l, s, amount, key);
  }

  lemma LeftoverSizes(l: Ledger, s: Symbol, owners: seq<Owner>, key: Key)
    requires Distinct(owners)
    ensures At(BookAll(l, L.LeftoverFills(l, s, owners)), key).size == At(l, key).size +
      if key.symbol != s then 0.0
      else if key.owner.Unattributed? then StrategySizes(l, s, owners)
      else if key.owner in owners then 0.0 - At(l, key).size else 0.0
  {
    hide BookAll, L.LeftoverFills, L.MovedSize, StrategySizes;
    L.LeftoverLaw(l, s, owners);
    SizesMoved(l, s, owners);
  }

  lemma EffectTrades(c: Config, log: seq<Booking>, b: Booking, key: Key)
    requires Good(c) && Sequenced(c, log) && Recovery.Bookable(c, log, b)
    ensures At(Effect(c, Replay(c, log), log, b), key).size == At(Replay(c, log), key).size + TradedOn(c, log, b, key)
  {
    hide Replay, Sequenced, BookAll, BookFunding, FillsOf, Turns, Share, L.LeftoverFills, StrategySizes, F.Net, B.Coins;
    var l := Replay(c, log);
    match b
    case FillBooked(cloid, _, quantity, price, fee) =>
      var cum := CumIn(log, cloid) + quantity;
      var fills := FillsOf(c, cloid, cum, quantity, price, fee).value;
      FillsTrade(c, cloid, cum, quantity, price, fee);
      SizeAfter(l, fills, key);
      FillTrades(c, cloid, cum, quantity, price, fee, key);
    case FundingBooked(s, _, amount) => FundingSizes(l, s, amount, key);
    case LeftoverBooked(s, _, owners) => LeftoverSizes(l, s, owners, key);
    case HealBooked(_, fills, _) => SizeAfter(l, fills, key);
  }

  lemma {:induction false} ReplaySizes(c: Config, log: seq<Booking>, key: Key)
    requires Good(c) && Sequenced(c, log)
    ensures At(Replay(c, log), key).size == At(c.genesis, key).size + TradedIn(c, log, key)
  {
    hide Effect, TradedOn, Recovery.Bookable;
    if log != [] {
      ReplaySizes(c, log[..|log| - 1], key);
      EffectTrades(c, log[..|log| - 1], log[|log| - 1], key);
    }
  }

  /** Partition by partition: in every state any run reaches, a partition's durable size is genesis plus
      what each booking traded on it. Nothing a strategy's own orders fill ever lands on another's. */
  lemma PartitionSizes(c: Config, events: seq<Event>, key: Key)
    requires Good(c)
    ensures var e := RunFrom(c, events);
      Sequenced(c, e.log) && At(e.durable.ledger, key).size == At(c.genesis, key).size + TradedIn(c, e.log, key)
  {
    hide RunFrom, TradedIn;
    EveryRunSound(c, events);
    ReplaySizes(c, RunFrom(c, events).log, key);
  }
}
