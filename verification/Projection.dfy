// The engine's in-memory ledger beside its store: fold, write in one transaction, then project.
// What each verb does to the heap is stated by the value functions of `Ledger` and `Recovery`.

module Projection {
  import opened Domain
  import opened Sums
  import opened Positions
  import opened Ledger
  import opened Sagas
  import opened Recovery
  import B = FlattenBooking
  import F = FlattenSplit

  // A ledger fill as a partition reads it: a magnitude beside its direction.
  function EventOf(id: EventId, f: Fill): PartitionFill {
    PartitionFill(id, f.key, AbsR(f.signed), f.price, f.fee)
  }

  function SideOf(f: Fill): Side {
    if f.signed > 0.0 then Buy else Sell
  }

  // The partition after a fill it accepts.
  function AfterFill(p: Pos, f: Fill): Pos {
    BookPos(p.(fees := p.fees + f.fee), f.signed, f.price)
  }

  class PortfolioProjection {
    var positions: map<Key, Position>
    var cash: real
    var fillsApplied: nat
    var lastFills: map<Symbol, nat>

    ghost predicate Valid()
      reads this, positions.Values
    {
      forall k :: k in positions ==> positions[k].key == k
    }

    ghost function Contents(): map<Key, Pos>
      reads this, positions.Values
    {
      map k | k in positions :: positions[k].View()
    }

    ghost function View(): Book
      reads this, positions.Values
    {
      Book(Ledger(cash, Contents()), map k | k in positions :: positions[k].applied)
    }

    constructor ()
      ensures Valid() && View() == Book(Ledger(0.0, map[]), map[]) && fillsApplied == 0 && lastFills == map[]
    {
      positions, cash, fillsApplied, lastFills := map[], 0.0, 0, map[];
    }

    // The one position a fill of `key` can touch.
    function Target(key: Key): set<Position>
      reads this
    {
      if key in positions then {positions[key]} else {}
    }

    // A partition's first fill returns a position not filed yet: `Project` files it, once the write
    // has landed.
    method ApplyFill(event: PartitionFill, side: Side) returns (position: Position, r: Outcome)
      requires Valid()
      modifies this`cash, this`fillsApplied, this`lastFills, Target(event.key)
      ensures Valid()
      ensures position.key == event.key
      ensures if event.key in positions then position == positions[event.key] else fresh(position)
      ensures r.Refused? <==> event.quantity <= 0.0
      ensures r.Duplicate? <==> !r.Refused? && event.id in SeenAt(old(View()), event.key)
      ensures !r.Applied? ==>
        && cash == old(cash) && fillsApplied == old(fillsApplied) && lastFills == old(lastFills)
        && (event.key in positions ==>
              && position.View() == old(positions[event.key].View())
              && position.applied == old(positions[event.key].applied))
      ensures r.Applied? ==>
        var f := Fill.Fill(event.key, SignedQuantity(event.quantity, side), event.price, event.fee);
        var p := At(old(View()).ledger, event.key);
        && position.View() == AfterFill(p, f)
        && position.applied == SeenAt(old(View()), event.key) + {event.id}
        && cash == old(cash) + (AfterFill(p, f).realized - p.realized) - (AfterFill(p, f).fees - p.fees)
        && fillsApplied == old(fillsApplied) + 1
        && lastFills == old(lastFills)[event.key.symbol := fillsApplied]
    {
      if event.key in positions {
        position := positions[event.key];
      } else {
        position := new Position(event.key);
      }
      var realizedBefore, feesBefore := position.realizedPnl, position.fees;
      assert position.View() == At(old(View()).ledger, event.key);
      r := position.Apply(event, side);
      if r.Applied? {
        cash := cash + (position.realizedPnl - realizedBefore);
        cash := cash - (position.fees - feesBefore);
        fillsApplied := fillsApplied + 1;
        lastFills := lastFills[event.key.symbol := fillsApplied];
      }
    }

    method Project(position: Position)
      requires Valid()
      modifies this`positions
      ensures positions == old(positions)[position.key := position] && Valid()
    {
      positions := positions[position.key := position];
    }

    method CorrectCash(target: real)
      modifies this`cash
      ensures cash == target
    {
      cash := target;
    }

    // The partitions holding size on a symbol, each once.
    method ExposedOn(s: Symbol) returns (keys: seq<Key>)
      requires Valid()
      ensures forall i, j :: 0 <= i < j < |keys| ==> keys[i] != keys[j]
      ensures forall i :: 0 <= i < |keys| ==> keys[i] in positions && keys[i] in ExposedKeys(Contents(), s)
      ensures forall k :: k in ExposedKeys(Contents(), s) ==> k in keys
    {
      keys := [];
      var left := positions.Keys;
      while left != {}
        invariant left <= positions.Keys
        invariant forall i, j :: 0 <= i < j < |keys| ==> keys[i] != keys[j]
        invariant forall k :: k in keys <==> k in positions && k !in left && Exposed(k, positions[k].View(), s)
        decreases |left|
      {
        var k :| k in left;
        if k.symbol == s && positions[k].signedSize != 0.0 {
          keys := keys + [k];
        }
        left := left - {k};
      }
      assert forall i :: 0 <= i < |keys| ==> keys[i] in keys;
    }

    // One settled boundary, past both gates: the cash line takes the whole amount, the exposed
    // partitions their shares of it. `mark` is the store's own watermark for the symbol.
    method ApplyFunding(s: Symbol, boundary: int, amount: real, genesisTs: int, mark: Option<int>)
      returns (exposed: Option<seq<Key>>)
      requires Valid()
      modifies this`cash, positions.Values
      ensures Valid()
      ensures exposed.None? <==> boundary <= genesisTs || (mark.Some? && boundary <= mark.value)
      ensures exposed.None? ==> View() == old(View())
      ensures exposed.Some? ==>
        && View() == old(View()).(ledger := BookFunding(old(View()).ledger, s, amount))
        && (forall i :: 0 <= i < |exposed.value| ==>
              exposed.value[i] in positions && exposed.value[i] in ExposedKeys(old(Contents()), s))
        && (forall k :: k in ExposedKeys(old(Contents()), s) ==> k in exposed.value)
    {
      hide BookFunding, FundLines, AccountNet, ExposedKeys, Funded;
      if boundary <= genesisTs || (mark.Some? && boundary <= mark.value) {
        return None;
      }
      ghost var before := View();
      var keys := ExposedOn(s);
      FundAll(s, keys, amount);
      cash := cash + amount;
      FundedReads(this, before, keys, s, amount);
      return Some(keys);
    }

    // Split the accrual over the exposed partitions.
    method FundAll(s: Symbol, keys: seq<Key>, amount: real)
      requires Valid()
      requires forall i, j :: 0 <= i < j < |keys| ==> keys[i] != keys[j]
      requires forall i :: 0 <= i < |keys| ==> keys[i] in positions && keys[i] in ExposedKeys(Contents(), s)
      requires forall k :: k in ExposedKeys(Contents(), s) ==> k in keys
      modifies positions.Values`funding
      ensures Valid()
      ensures forall k :: k in positions ==>
        Funded(positions[k].View(), old(positions[k].View()), k in keys, old(AccountNet(View().ledger, s)), amount)
    {
      hide FundingShare, SumR, AccountNet, ExposedKeys, SumMap;
      ghost var before := View().ledger;
      ghost var net := AccountNet(before, s);
      var across := seq(|keys|, i requires 0 <= i < |keys| && keys[i] in positions reads this => positions[keys[i]]);
      assert Sizes(across) == SizesAt(before.positions, keys);
      ExposedNet(before, s, keys);
      Split(amount, across);
      assert Sizes(across) == SizesAt(before.positions, keys);
      forall k | k in positions
        ensures Funded(positions[k].View(), before.positions[k], k in keys, net, amount)
      {
        if k in keys {
          var i :| 0 <= i < |keys| && keys[i] == k;
          assert across[i] == positions[k] && across[i].signedSize == before.positions[k].size;
        } else {
          assert forall i :: 0 <= i < |across| ==> across[i].key == keys[i] != k;
        }
      }
    }

    // One accrual across the partitions holding the symbol: pro rata by signed size, and the last
    // takes the residue, so the lines sum to the amount.
    method Split(amount: real, across: seq<Position>)
      requires forall i, j :: 0 <= i < j < |across| ==> across[i] != across[j]
      modifies (set i | 0 <= i < |across| :: across[i])`funding
      ensures var net := SumR(Sizes(across));
        forall i :: 0 <= i < |across| ==>
          across[i].funding == old(across[i].funding)
            + if net == 0.0 then 0.0 else FundingShare(across[i].signedSize, amount, net)
    {
      hide FundingShare, SumR;
      ghost var sizes := Sizes(across);
      var net := 0.0;
      NoSum();
      assert sizes[..0] == [];
      for i := 0 to |across|
        invariant net == SumR(sizes[..i])
        invariant forall j :: 0 <= j < |across| ==> across[j].funding == old(across[j].funding)
      {
        PrefixSum(sizes, i);
        net := net + across[i].signedSize;
      }
      assert sizes[..|across|] == sizes && Sizes(across) == sizes;
      if across == [] || net == 0.0 {
        return;
      }
      ShareReads(amount, net);
      var handed := 0.0;
      for i := 0 to |across| - 1
        invariant handed == FundingShare(SumR(sizes[..i]), amount, net)
        invariant forall j :: 0 <= j < |across| ==>
          across[j].funding == old(across[j].funding) + if j < i then FundingShare(sizes[j], amount, net) else 0.0
      {
        var share := FundingShare(across[i].signedSize, amount, net);
        across[i].AccrueFunding(share);
        handed := handed + share;
        PrefixSum(sizes, i);
        ShareAdds(SumR(sizes[..i]), sizes[i], amount, net);
      }
      var last := |across| - 1;
      PrefixSum(sizes, last);
      assert sizes[..last + 1] == sizes;
      ShareAdds(SumR(sizes[..last]), sizes[last], amount, net);
      across[last].AccrueFunding(amount - handed);
      assert Sizes(across) == sizes;
    }
  }

  // The sizes of a symbol's exposed partitions sum to its account net.
  lemma ExposedSum(m: map<Key, Pos>, s: Symbol, keys: seq<Key>)
    requires forall i, j :: 0 <= i < j < |keys| ==> keys[i] != keys[j]
    requires forall i :: 0 <= i < |keys| ==> keys[i] in m && Exposed(keys[i], m[keys[i]], s)
    requires forall k :: k in m && Exposed(k, m[k], s) ==> k in keys
    ensures SumR(SizesAt(m, keys)) == SumMap(m, SizeOn(s))
  {
    SumMapKeys(m, SizeOn(s), keys);
    assert SizesAt(m, keys) == ReadAt(m, SizeOn(s), keys);
  }

  lemma ExposedNet(l: Ledger, s: Symbol, keys: seq<Key>)
    requires forall i, j :: 0 <= i < j < |keys| ==> keys[i] != keys[j]
    requires forall i :: 0 <= i < |keys| ==> keys[i] in ExposedKeys(l.positions, s)
    requires forall k :: k in ExposedKeys(l.positions, s) ==> k in keys
    ensures forall i :: 0 <= i < |keys| ==> keys[i] in l.positions
    ensures SumR(SizesAt(l.positions, keys)) == AccountNet(l, s)
  {
    ExposedSum(l.positions, s, keys);
  }

  function SizesAt(m: map<Key, Pos>, keys: seq<Key>): (s: seq<real>)
    requires forall i :: 0 <= i < |keys| ==> keys[i] in m
    ensures |s| == |keys| && forall i :: 0 <= i < |s| ==> s[i] == m[keys[i]].size
  {
    seq(|keys|, i requires 0 <= i < |keys| => m[keys[i]].size)
  }

  lemma NoSum()
    ensures SumR([]) == 0.0
  {}

  lemma PrefixSum(sizes: seq<real>, i: nat)
    requires i < |sizes|
    ensures SumR(sizes[..i + 1]) == SumR(sizes[..i]) + sizes[i]
  {
    SumRAppend(sizes[..i], [sizes[i]]);
    assert sizes[..i + 1] == sizes[..i] + [sizes[i]];
  }

  ghost function Sizes(across: seq<Position>): (s: seq<real>)
    reads across
    ensures |s| == |across| && forall i :: 0 <= i < |s| ==> s[i] == across[i].signedSize
  {
    seq(|across|, i requires 0 <= i < |across| reads across => across[i].signedSize)
  }

  // The store: one transaction moves all of a write's rows or none.
  class Store {
    var orders: map<string, OrderRow>
    var positions: map<Key, Pos>
    var cash: real
    var marks: map<Symbol, int>

    function SagaRows(): map<string, Saga>
      reads this
    {
      map cloid | cloid in orders :: orders[cloid].saga
    }

    function View(): Durable
      reads this
    {
      Durable(SagaRows(), Ledger(cash, positions), marks)
    }

    constructor (cash: real)
      ensures View() == Durable(map[], Ledger(cash, map[]), map[]) && orders == map[]
    {
      this.cash := cash;
      orders, positions, marks := map[], map[], map[];
    }

    // One order row, and no ledger row beside it.
    method Checkpoint(cloid: string, row: OrderRow)
      modifies this`orders
      ensures orders == old(orders)[cloid := row]
      ensures View() == old(View()).(orders := old(View()).orders[cloid := row.saga])
    {
      orders := orders[cloid := row];
      assert SagaRows() == old(SagaRows())[cloid := row.saga];
    }

    // `accepts` is whether the store can make the write durable.
    method CheckpointLedger(order: Option<(string, OrderRow)>, rows: map<Key, Pos>, account: real,
                            mark: Option<(Symbol, int)>, accepts: bool) returns (ok: bool)
      modifies this
      ensures ok == accepts
      ensures !ok ==> View() == old(View()) && orders == old(orders)
      ensures ok ==> orders == if order.Some? then old(orders)[order.value.0 := order.value.1] else old(orders)
      ensures ok ==> View() == Durable(
        if order.Some? then old(View()).orders[order.value.0 := order.value.1.saga] else old(View()).orders,
        Ledger(account, old(positions) + rows),
        if mark.Some? then old(marks)[mark.value.0 := mark.value.1] else old(marks))
    {
      if !accepts {
        return false;
      }
      if order.Some? {
        Checkpoint(order.value.0, order.value.1);
      }
      positions, cash := positions + rows, account;
      if mark.Some? {
        marks := marks[mark.value.0 := mark.value.1];
      }
      return true;
    }
  }

  lemma {:induction false} TakeAllSteps(b: Book, o: Origin, fills: seq<Fill>, f: Fill)
    ensures TakeAll(b, o, fills + [f]) == Take(TakeAll(b, o, fills), IdOf(o, f.key), f)
    decreases fills
  {
    hide Take;
    if fills != [] {
      TakeAllSteps(Take(b, IdOf(o, fills[0].key), fills[0]), o, fills[1..], f);
      assert (fills + [f])[1..] == fills[1..] + [f];
    } else {
      assert ([f])[1..] == [];
    }
  }

  lemma NoKeys()
    ensures KeysOf([]) == {}
  {}

  // Taking fills touches only their partitions.
  lemma {:induction false} TakeAllElsewhere(b: Book, o: Origin, fills: seq<Fill>)
    requires b.ledger.positions.Keys == b.seen.Keys
    ensures var r := TakeAll(b, o, fills);
      && r.ledger.positions.Keys == r.seen.Keys == b.seen.Keys + KeysOf(fills)
      && forall k :: k !in KeysOf(fills) ==> At(r.ledger, k) == At(b.ledger, k) && SeenAt(r, k) == SeenAt(b, k)
    decreases fills
  {
    hide BookPos, KeysOf;
    if fills == [] {
      NoKeys();
    } else {
      TakeAllElsewhere(Take(b, IdOf(o, fills[0].key), fills[0]), o, fills[1..]);
      KeysFirst(fills);
    }
  }

  // What an accrual leaves a partition: its share where it was exposed, and nothing else moved.
  predicate Funded(now: Pos, was: Pos, exposed: bool, net: real, amount: real) {
    now == if exposed && net != 0.0 then was.(funding := was.funding + FundingShare(was.size, amount, net)) else was
  }

  // Every partition reads what the accrual leaves it.
  lemma FundedReads(p: PortfolioProjection, before: Book, keys: seq<Key>, s: Symbol, amount: real)
    requires p.Valid() && p.cash == before.ledger.cash + amount
    requires p.positions.Keys == before.ledger.positions.Keys == before.seen.Keys
    requires forall i :: 0 <= i < |keys| ==> keys[i] in ExposedKeys(before.ledger.positions, s)
    requires forall k :: k in ExposedKeys(before.ledger.positions, s) ==> k in keys
    requires forall k :: k in p.positions ==>
      && Funded(p.positions[k].View(), before.ledger.positions[k], k in keys, AccountNet(before.ledger, s), amount)
      && p.positions[k].applied == before.seen[k]
    ensures p.View() == before.(ledger := BookFunding(before.ledger, s, amount))
  {
    hide FundingShare, AccountNet;
    forall k | k in keys ensures k in ExposedKeys(before.ledger.positions, s) {
      var i :| 0 <= i < |keys| && keys[i] == k;
    }
    assert p.Contents() == BookFunding(before.ledger, s, amount).positions;
    assert p.View().seen == before.seen;
  }

  // What taking one fill does to its own partition and the cash line, and to no other partition.
  lemma TakeAt(b: Book, id: EventId, f: Fill)
    ensures var r := Take(b, id, f); var p := At(b.ledger, f.key);
      && (id in SeenAt(b, f.key) ==> r == b)
      && (id !in SeenAt(b, f.key) ==>
            && At(r.ledger, f.key) == AfterFill(p, f)
            && SeenAt(r, f.key) == SeenAt(b, f.key) + {id}
            && r.ledger.cash
               == b.ledger.cash + (AfterFill(p, f).realized - p.realized) - (AfterFill(p, f).fees - p.fees))
      && forall k :: k != f.key ==> At(r.ledger, k) == At(b.ledger, k) && SeenAt(r, k) == SeenAt(b, k)
  {
    hide BookPos;
  }

  lemma TakeNone(b: Book, o: Origin)
    ensures TakeAll(b, o, []) == b
  {}

  lemma KeysGrow(fills: seq<Fill>, i: nat)
    requires i < |fills|
    ensures KeysOf(fills[..i + 1]) == KeysOf(fills[..i]) + {fills[i].key}
  {
    assert forall j :: 0 <= j < i ==> fills[..i][j] == fills[..i + 1][j];
    assert fills[..i + 1][i] == fills[i];
  }

  ghost predicate Holds(position: Position, b: Book, key: Key)
    reads position
  {
    position.key == key && position.View() == At(b.ledger, key) && position.applied == SeenAt(b, key)
  }

  function ChangedKeys(changes: seq<Position>): set<Key> {
    set i | 0 <= i < |changes| :: changes[i].key
  }

  lemma KeysLeft(changes: seq<Position>, i: nat)
    requires i < |changes|
    ensures ChangedKeys(changes[i..]) == {changes[i].key} + ChangedKeys(changes[i + 1..])
  {
    var a, b := changes[i..], changes[i + 1..];
    forall key | key in ChangedKeys(a) ensures key in {changes[i].key} + ChangedKeys(b) {
      var j :| 0 <= j < |a| && a[j].key == key;
      assert j > 0 ==> b[j - 1].key == key;
    }
    forall key | key in ChangedKeys(b) ensures key in ChangedKeys(a) {
      var j :| 0 <= j < |b| && b[j].key == key;
      assert a[j + 1].key == key;
    }
    assert a[0].key == changes[i].key;
  }

  lemma KeysTaken(changes: seq<Position>, i: nat)
    requires i < |changes|
    ensures ChangedKeys(changes[..i + 1]) == ChangedKeys(changes[..i]) + {changes[i].key}
  {
    assert forall j :: 0 <= j < i ==> changes[..i][j] == changes[..i + 1][j];
    assert changes[..i + 1][i] == changes[i];
  }

  lemma NoCost(m: map<Key, Pos>)
    ensures SumMap(m - m.Keys, Cost) == 0.0
  {
    assert m - m.Keys == map[];
  }

  lemma CostTaken(m: map<Key, Pos>, left: set<Key>, k: Key)
    requires k in left && left <= m.Keys
    ensures SumMap(m - (left - {k}), Cost) == SumMap(m - left, Cost) + Basis(m[k])
  {
    SumMapRemove(m - (left - {k}), Cost, k);
    assert (m - (left - {k})) - {k} == m - left;
  }

  // The cash line is no part of what a position holds.
  lemma HeldAlike(p: PortfolioProjection, changes: seq<Position>, a: Book, b: Book)
    requires a.ledger.positions == b.ledger.positions && a.seen == b.seen
    requires forall i :: 0 <= i < |changes| ==> Holds(changes[i], a, changes[i].key)
    requires forall k :: k in p.positions && k !in ChangedKeys(changes) ==> Holds(p.positions[k], a, k)
    ensures forall i :: 0 <= i < |changes| ==> Holds(changes[i], b, changes[i].key)
    ensures forall k :: k in p.positions && k !in ChangedKeys(changes) ==> Holds(p.positions[k], b, k)
  {}

  lemma RowsWritten(d: Ledger, m: Ledger, rows: map<Key, Pos>, keys: set<Key>)
    requires rows == map k | k in m.positions && k in keys :: m.positions[k]
    ensures WriteRows(d, m, keys) == Ledger(m.cash, d.positions + rows)
  {}

  // Positions of other partitions still read right once a further fill is taken.
  lemma HeldThrough(changes: seq<Position>, now: Book, id: EventId, f: Fill, fills: seq<Fill>)
    requires |changes| == |fills| && forall j :: 0 <= j < |fills| ==> fills[j].key != f.key
    requires forall j :: 0 <= j < |changes| ==> Holds(changes[j], now, fills[j].key)
    ensures forall j :: 0 <= j < |changes| ==> Holds(changes[j], Take(now, id, f), fills[j].key)
  {
    hide Take;
    TakeAt(now, id, f);
  }

  lemma KeysAgree(changes: seq<Position>, b: Book, fills: seq<Fill>)
    requires |changes| == |fills| && forall j :: 0 <= j < |changes| ==> Holds(changes[j], b, fills[j].key)
    ensures ChangedKeys(changes) == KeysOf(fills)
    ensures forall i :: 0 <= i < |changes| ==> Holds(changes[i], b, changes[i].key)
  {
    assert forall i :: 0 <= i < |changes| ==> changes[i].key == fills[i].key;
  }

  lemma HeldElsewhere(p: PortfolioProjection, b: Book, o: Origin, fills: seq<Fill>)
    requires b.ledger.positions.Keys == b.seen.Keys
    requires forall k :: k in p.positions && k !in KeysOf(fills) ==> Holds(p.positions[k], b, k)
    ensures forall k :: k in p.positions && k !in KeysOf(fills) ==> Holds(p.positions[k], TakeAll(b, o, fills), k)
  {
    hide TakeAll;
    TakeAllElsewhere(b, o, fills);
  }

  lemma ViewReads(p: PortfolioProjection)
    requires p.Valid()
    ensures p.View().ledger.positions.Keys == p.View().seen.Keys == p.positions.Keys
    ensures forall k :: if k in p.positions then Holds(p.positions[k], p.View(), k)
                        else At(p.View().ledger, k) == FRESH && SeenAt(p.View(), k) == {}
  {}

  lemma UnseenReads(l: Ledger)
    ensures var b := Unseen(l);
      && b.ledger == l && b.seen.Keys == l.positions.Keys
      && forall k :: k in l.positions ==> At(b.ledger, k) == l.positions[k] && SeenAt(b, k) == {}
  {}

  lemma ViewHeld(p: PortfolioProjection, b: Book)
    requires p.cash == b.ledger.cash && p.positions.Keys == b.ledger.positions.Keys == b.seen.Keys
    requires forall k :: k in p.positions ==> Holds(p.positions[k], b, k)
    ensures p.View() == b
  {
    assert p.Contents() == b.ledger.positions;
    assert p.View().seen == b.seen;
  }

  lemma PrefixFacts(b: Book, o: Origin, fills: seq<Fill>, i: nat)
    requires i < |fills| && DistinctKeys(fills) && b.ledger.positions.Keys == b.seen.Keys
    ensures TakeAll(b, o, fills[..i + 1]) == Take(TakeAll(b, o, fills[..i]), IdOf(o, fills[i].key), fills[i])
    ensures KeysOf(fills[..i + 1]) == KeysOf(fills[..i]) + {fills[i].key}
    ensures forall j :: 0 <= j < i ==> fills[j].key in KeysOf(fills[..i]) && fills[j].key != fills[i].key
    ensures fills[i].key !in KeysOf(fills[..i])
    ensures var now := TakeAll(b, o, fills[..i]);
      At(now.ledger, fills[i].key) == At(b.ledger, fills[i].key) && SeenAt(now, fills[i].key) == SeenAt(b, fills[i].key)
  {
    hide TakeAll, Take;
    assert fills[..i + 1] == fills[..i] + [fills[i]];
    TakeAllSteps(b, o, fills[..i], fills[i]);
    TakeAllElsewhere(b, o, fills[..i]);
    KeysGrow(fills, i);
    assert forall j :: 0 <= j < i ==> fills[..i][j] == fills[j];
  }

  class Checkpointer {
    const store: Store
    const portfolio: PortfolioProjection

    constructor (store: Store, portfolio: PortfolioProjection)
      ensures this.store == store && this.portfolio == portfolio
    {
      this.store, this.portfolio := store, portfolio;
    }

    ghost predicate Valid()
      reads this, portfolio, portfolio.positions.Values
    {
      portfolio.Valid()
    }

    // One piece. `now` is the book as the pieces before it left it.
    method FoldOne(o: Origin, f: Fill, ghost now: Book) returns (position: Position)
      requires Valid() && f.signed != 0.0 && now.ledger.cash == portfolio.cash
      requires if f.key in portfolio.positions then Holds(portfolio.positions[f.key], now, f.key)
               else At(now.ledger, f.key) == FRESH && SeenAt(now, f.key) == {}
      modifies portfolio`cash, portfolio`fillsApplied, portfolio`lastFills, portfolio.Target(f.key)
      ensures Valid() && Holds(position, Take(now, IdOf(o, f.key), f), f.key)
      ensures portfolio.cash == Take(now, IdOf(o, f.key), f).ledger.cash
      ensures if f.key in portfolio.positions then position == portfolio.positions[f.key] else fresh(position)
    {
      hide Take, AfterFill;
      TakeAt(now, IdOf(o, f.key), f);
      assert SignedQuantity(AbsR(f.signed), SideOf(f)) == f.signed;
      var outcome;
      position, outcome := portfolio.ApplyFill(EventOf(IdOf(o, f.key), f), SideOf(f));
    }

    // Fold a recorded fill's pieces into the projection. Nothing is filed yet.
    method FoldAll(o: Origin, fills: seq<Fill>) returns (changes: seq<Position>)
      requires Valid() && DistinctKeys(fills) && forall i :: 0 <= i < |fills| ==> fills[i].signed != 0.0
      modifies portfolio`cash, portfolio`fillsApplied, portfolio`lastFills, portfolio.positions.Values
      ensures Valid() && |changes| == |fills|
      ensures var b := TakeAll(old(portfolio.View()), o, fills);
        && portfolio.cash == b.ledger.cash
        && ChangedKeys(changes) == KeysOf(fills)
        && (forall i :: 0 <= i < |changes| ==> Holds(changes[i], b, changes[i].key))
        && (forall k :: k in portfolio.positions && k !in KeysOf(fills) ==> Holds(portfolio.positions[k], b, k))
    {
      hide TakeAll, Take, At, SeenAt, KeysOf, Holds;
      ghost var b := portfolio.View();
      TakeNone(b, o);
      ViewReads(portfolio);
      assert fills[..0] == [];
      changes := [];
      for i := 0 to |fills|
        invariant Valid() && |changes| == i
        invariant portfolio.cash == TakeAll(b, o, fills[..i]).ledger.cash
        invariant forall j :: 0 <= j < i ==> Holds(changes[j], TakeAll(b, o, fills[..i]), fills[j].key)
        invariant forall j :: 0 <= j < i ==>
          if fills[j].key in portfolio.positions then changes[j] == portfolio.positions[fills[j].key]
            else fresh(changes[j])
        invariant forall k :: k in portfolio.positions && k !in KeysOf(fills[..i]) ==>
          Holds(portfolio.positions[k], b, k)
      {
        var f := fills[i];
        ghost var now := TakeAll(b, o, fills[..i]);
        PrefixFacts(b, o, fills, i);
        HeldElsewhere(portfolio, b, o, fills[..i]);
        var position := FoldOne(o, f, now);
        HeldThrough(changes, now, IdOf(o, f.key), f, fills[..i]);
        changes := changes + [position];
      }
      assert fills[..|fills|] == fills;
      HeldElsewhere(portfolio, b, o, fills);
      KeysAgree(changes, TakeAll(b, o, fills), fills);
    }

    // File every change. `b` is the book the changes hold, beside the partitions they left alone.
    method ProjectAll(changes: seq<Position>, ghost b: Book)
      requires Valid()
      requires forall i :: 0 <= i < |changes| ==> Holds(changes[i], b, changes[i].key)
      requires forall k :: k in portfolio.positions && k !in ChangedKeys(changes) ==>
        Holds(portfolio.positions[k], b, k)
      modifies portfolio`positions
      ensures Valid() && portfolio.positions.Keys == old(portfolio.positions.Keys) + ChangedKeys(changes)
      ensures forall k :: k in portfolio.positions ==> Holds(portfolio.positions[k], b, k)
    {
      for i := 0 to |changes|
        invariant Valid()
        invariant portfolio.positions.Keys == old(portfolio.positions.Keys) + ChangedKeys(changes[..i])
        invariant forall k :: k in portfolio.positions && k !in ChangedKeys(changes[i..]) ==>
          Holds(portfolio.positions[k], b, k)
      {
        assert changes[..i + 1][..i] == changes[..i];
        KeysTaken(changes, i);
        KeysLeft(changes, i);
        portfolio.Project(changes[i]);
      }
      assert changes[..|changes|] == changes;
    }

    // The rows a write names: the moved partitions as the fold left them.
    method RowsOf(changes: seq<Position>, ghost b: Book) returns (rows: map<Key, Pos>)
      requires ChangedKeys(changes) <= b.ledger.positions.Keys
      requires forall i :: 0 <= i < |changes| ==> Holds(changes[i], b, changes[i].key)
      ensures rows == map k | k in b.ledger.positions && k in ChangedKeys(changes) :: b.ledger.positions[k]
    {
      rows := map[];
      for i := 0 to |changes|
        invariant rows.Keys == ChangedKeys(changes[..i])
        invariant forall k :: k in rows ==> k in b.ledger.positions && rows[k] == b.ledger.positions[k]
      {
        KeysTaken(changes, i);
        rows := rows[changes[i].key := changes[i].View()];
      }
      assert changes[..|changes|] == changes;
    }

    // An order row on its own: a placement, a status, a cancel marker.
    method Checkpoint(order: Order)
      modifies store`orders
      ensures store.orders == old(store.orders)[order.cloid := order.Row()]
      ensures store.View() == old(store.View()).(orders := old(store.View()).orders[order.cloid := order.View()])
    {
      store.Checkpoint(order.cloid, order.Row());
    }

    // Book one recorded fill, whole or split, in one transaction with its order row. A refused
    // write leaves the store as it was.
    method CheckpointFill(order: Order, o: Origin, fills: seq<Fill>, accepts: bool) returns (ok: bool)
      requires Valid() && DistinctKeys(fills) && forall i :: 0 <= i < |fills| ==> fills[i].signed != 0.0
      modifies store, portfolio, portfolio.positions.Values
      ensures ok == accepts
      ensures !ok ==> store.View() == old(store.View()) && store.orders == old(store.orders)
      ensures ok ==> Valid() && portfolio.View() == TakeAll(old(portfolio.View()), o, fills)
      ensures ok ==> store.orders == old(store.orders)[order.cloid := old(order.Row())]
      ensures ok ==> store.View() == Durable(
        old(store.View()).orders[order.cloid := old(order.View())],
        WriteRows(old(store.View()).ledger, TakeAll(old(portfolio.View()), o, fills).ledger, KeysOf(fills)),
        old(store.marks))
    {
      hide TakeAll, WriteRows, At, SeenAt, Holds, KeysOf, ChangedKeys;
      ghost var before := portfolio.View();
      ghost var b := TakeAll(before, o, fills);
      TakeAllElsewhere(before, o, fills);
      var changes := FoldAll(o, fills);
      var rows := RowsOf(changes, b);
      RowsWritten(store.View().ledger, b.ledger, rows, KeysOf(fills));
      ok := store.CheckpointLedger(Some((order.cloid, order.Row())), rows, portfolio.cash, None, accepts);
      if !ok {
        return;
      }
      ProjectAll(changes, b);
      ViewHeld(portfolio, b);
    }

    // Book one settled boundary in one transaction with the watermark that stops it booking again.
    // A gated boundary writes nothing.
    method CheckpointFunding(s: Symbol, boundary: int, amount: real, genesisTs: int, accepts: bool)
      returns (booked: bool)
      requires Valid()
      modifies store, portfolio, portfolio.positions.Values
      ensures booked <==>
        accepts && boundary > genesisTs && (s in old(store.marks) ==> boundary > old(store.marks)[s])
      ensures store.orders == old(store.orders)
      ensures !booked ==> store.View() == old(store.View())
      ensures !(boundary > genesisTs && (s in old(store.marks) ==> boundary > old(store.marks)[s])) ==>
        Valid() && portfolio.View() == old(portfolio.View())
      ensures booked ==>
        && Valid()
        && portfolio.View() == old(portfolio.View()).(ledger := BookFunding(old(portfolio.View()).ledger, s, amount))
        && store.View() == Durable(old(store.View()).orders,
             WriteRows(old(store.View()).ledger, portfolio.View().ledger, ExposedKeys(old(portfolio.Contents()), s)),
             old(store.marks)[s := boundary])
    {
      hide BookFunding, ExposedKeys, WriteRows, Holds, At, SeenAt;
      ghost var exposedKeys := ExposedKeys(portfolio.Contents(), s);
      var mark := if s in store.marks then Some(store.marks[s]) else None;
      var exposed := portfolio.ApplyFunding(s, boundary, amount, genesisTs, mark);
      if exposed.None? {
        return false;
      }
      ghost var b := portfolio.View();
      var rows := RowsAt(exposed.value, b);
      assert (set i | 0 <= i < |exposed.value| :: exposed.value[i]) == exposedKeys;
      RowsWritten(store.View().ledger, b.ledger, rows, exposedKeys);
      booked := store.CheckpointLedger(None, rows, portfolio.cash, Some((s, boundary)), accepts);
    }

    method RowsAt(keys: seq<Key>, ghost b: Book) returns (rows: map<Key, Pos>)
      requires Valid() && b == portfolio.View()
      requires forall i :: 0 <= i < |keys| ==> keys[i] in portfolio.positions
      ensures rows == map k | k in b.ledger.positions
        && k in (set i | 0 <= i < |keys| :: keys[i]) :: b.ledger.positions[k]
    {
      rows := map[];
      for i := 0 to |keys|
        invariant forall k :: k in rows <==> exists j :: 0 <= j < i && keys[j] == k
        invariant forall k :: k in rows ==> k in portfolio.positions && rows[k] == portfolio.positions[k].View()
      {
        rows := rows[keys[i] := portfolio.positions[keys[i]].View()];
      }
    }

    // Every partition, a folded one that is not filed yet included.
    method HeldWith(changes: seq<Position>, ghost b: Book) returns (held: map<Key, Position>)
      requires Valid()
      requires forall i :: 0 <= i < |changes| ==> Holds(changes[i], b, changes[i].key)
      requires forall k :: k in portfolio.positions && k !in ChangedKeys(changes) ==>
        Holds(portfolio.positions[k], b, k)
      ensures held.Keys == portfolio.positions.Keys + ChangedKeys(changes)
      ensures forall k :: k in held ==> Holds(held[k], b, k)
    {
      held := portfolio.positions;
      for i := 0 to |changes|
        invariant held.Keys == portfolio.positions.Keys + ChangedKeys(changes[..i])
        invariant forall k :: k in held && k !in ChangedKeys(changes[i..]) ==> Holds(held[k], b, k)
      {
        KeysTaken(changes, i);
        KeysLeft(changes, i);
        held := held[changes[i].key := changes[i]];
      }
      assert changes[..|changes|] == changes;
    }

    method CostBasis(held: map<Key, Position>, ghost b: Book) returns (basis: real)
      requires held.Keys == b.ledger.positions.Keys && forall k :: k in held ==> Holds(held[k], b, k)
      ensures basis == SumMap(b.ledger.positions, Cost)
    {
      hide SumMap, Basis;
      ghost var m := b.ledger.positions;
      var left := held.Keys;
      basis := 0.0;
      NoCost(m);
      while left != {}
        invariant left <= held.Keys
        invariant basis == SumMap(m - left, Cost)
        decreases |left|
      {
        var k :| k in left;
        CostTaken(m, left, k);
        assert held[k].View() == m[k];
        basis := basis + Basis(held[k].View());
        left := left - {k};
      }
      assert m - {} == m;
    }

    // Set the cash line to a net cash, behind the cost basis the fills left.
    method Correct(changes: seq<Position>, netCash: real, ghost b: Book)
      requires Valid() && b.ledger.positions.Keys == portfolio.positions.Keys + ChangedKeys(changes)
      requires forall i :: 0 <= i < |changes| ==> Holds(changes[i], b, changes[i].key)
      requires forall k :: k in portfolio.positions && k !in ChangedKeys(changes) ==>
        Holds(portfolio.positions[k], b, k)
      modifies portfolio`cash
      ensures portfolio.cash == Corrected(b.ledger, netCash).cash
    {
      hide Holds, ChangedKeys, SumMap;
      var held := HeldWith(changes, b);
      var basis := CostBasis(held, b);
      portfolio.CorrectCash(netCash + basis);
    }

    // Fold the size fills, and behind them set the cash line.
    method FoldHeal(o: Origin, fills: seq<Fill>, netCash: Option<real>) returns (changes: seq<Position>)
      requires Valid() && DistinctKeys(fills) && forall i :: 0 <= i < |fills| ==> fills[i].signed != 0.0
      modifies portfolio`cash, portfolio`fillsApplied, portfolio`lastFills, portfolio.positions.Values
      ensures Valid() && |changes| == |fills| && ChangedKeys(changes) == KeysOf(fills)
      ensures var b := HealedBook(old(portfolio.View()), o, fills, netCash);
        && portfolio.cash == b.ledger.cash
        && (forall i :: 0 <= i < |changes| ==> Holds(changes[i], b, changes[i].key))
        && (forall k :: k in portfolio.positions && k !in ChangedKeys(changes) ==> Holds(portfolio.positions[k], b, k))
        && b.ledger.positions.Keys == b.seen.Keys == old(portfolio.positions.Keys) + KeysOf(fills)
    {
      hide TakeAll, Holds, KeysOf, ChangedKeys;
      ghost var before := portfolio.View();
      ghost var b := TakeAll(before, o, fills);
      ViewReads(portfolio);
      TakeAllElsewhere(before, o, fills);
      changes := FoldAll(o, fills);
      if netCash.Some? {
        Correct(changes, netCash.value, b);
      }
      HeldAlike(portfolio, changes, b, HealedBook(before, o, fills, netCash));
    }

    /** One reconcile cycle's heals in one transaction: the size fills, and behind them the cash line
        at the venue's net cash plus the cost basis the fills left. */
    method CheckpointHeal(o: Origin, fills: seq<Fill>, netCash: Option<real>, accepts: bool) returns (ok: bool)
      requires Valid() && DistinctKeys(fills) && forall i :: 0 <= i < |fills| ==> fills[i].signed != 0.0
      modifies store, portfolio, portfolio.positions.Values
      ensures ok == accepts
      ensures !ok ==> store.View() == old(store.View())
      ensures ok ==> Valid() && portfolio.View() == HealedBook(old(portfolio.View()), o, fills, netCash)
      ensures store.orders == old(store.orders)
      ensures ok ==> store.View() == Durable(old(store.View()).orders,
        WriteRows(old(store.View()).ledger, HealedBook(old(portfolio.View()), o, fills, netCash).ledger, KeysOf(fills)),
        old(store.marks))
    {
      hide HealedBook, WriteRows, Holds, KeysOf, ChangedKeys;
      ghost var b := HealedBook(portfolio.View(), o, fills, netCash);
      var changes := FoldHeal(o, fills, netCash);
      var rows := RowsOf(changes, b);
      RowsWritten(store.View().ledger, b.ledger, rows, KeysOf(fills));
      ok := store.CheckpointLedger(None, rows, portfolio.cash, None, accepts);
      if !ok {
        return;
      }
      ProjectAll(changes, b);
      ViewHeld(portfolio, b);
    }

    // Restore the projection from the store. The dedup sets did not survive.
    method Recover()
      modifies portfolio
      ensures Valid() && portfolio.View() == Unseen(store.View().ledger)
    {
      hide At, SeenAt, Unseen;
      ghost var b := Unseen(store.View().ledger);
      UnseenReads(store.View().ledger);
      var left := store.positions.Keys;
      var restored: map<Key, Position> := map[];
      while left != {}
        invariant left <= store.positions.Keys && restored.Keys == store.positions.Keys - left
        invariant forall k :: k in restored ==>
          fresh(restored[k]) && Holds(restored[k], b, k)
        decreases |left|
      {
        var k :| k in left;
        var p := new Position.Restored(k, store.positions[k]);
        restored := restored[k := p];
        left := left - {k};
      }
      portfolio.positions, portfolio.cash := restored, store.cash;
      ViewHeld(portfolio, b);
    }
  }
}
