// The split of a flatten order's fills over every partition.
//
// A flatten order trades only the account net, yet every partition must reach zero at a full
// fill. The side with the net therefore moves faster than the order fills, and the side against
// it moves the difference. Sizes are whole lots. A basis lists the partitions in the sort order
// of their stored names, as `Checkpointer.split_basis` stores it.

module FlattenSplit {
  import opened Arith
  import opened Domain
  import opened Sums

  datatype Part = Part(owner: Owner, lots: int)
  type Basis = seq<Part>
  datatype Refusal = NoNet | WithTheNet | PastTheNet
  datatype SplitError = ZeroNet | FilledPastNet | Nothing
  datatype Move = Move(owner: Owner, size: int, fee: real)
  datatype Result<+T> = Ok(value: T) | Err(error: SplitError)

  function Lots(basis: Basis): (s: seq<int>)
    ensures |s| == |basis| && forall i :: 0 <= i < |s| ==> s[i] == basis[i].lots
  {
    seq(|basis|, i requires 0 <= i < |basis| => basis[i].lots)
  }

  // ----- Apportionment: one lot at a time to the partition furthest behind its exact share -----

  function Lag(lots: seq<nat>, got: seq<nat>, handed: nat, i: nat): int
    requires i < |lots| == |got|
  {
    lots[i] * handed - got[i] * Sum(lots)
  }

  // The first index with the largest lag among the first `n`: a tie goes to the id sorting first.
  function Best(lots: seq<nat>, got: seq<nat>, handed: nat, n: nat): (b: nat)
    requires 0 < n <= |lots| == |got|
    ensures b < n
    ensures forall j :: 0 <= j < n ==> Lag(lots, got, handed, j) <= Lag(lots, got, handed, b)
    ensures forall j :: 0 <= j < b ==> Lag(lots, got, handed, j) < Lag(lots, got, handed, b)
  {
    if n == 1 then 0 else
      var b := Best(lots, got, handed, n - 1);
      if Lag(lots, got, handed, n - 1) > Lag(lots, got, handed, b) then n - 1 else b
  }

  function HandOut(lots: seq<nat>, total: nat): (got: seq<nat>)
    requires total > 0 ==> lots != []
    ensures |got| == |lots|
  {
    if total == 0 then seq(|lots|, _ => 0) else
      var got := HandOut(lots, total - 1);
      var b := Best(lots, got, total, |lots|);
      got[b := got[b] + 1]
  }

  method HandOutLots(lots: seq<nat>, total: nat) returns (got: seq<nat>)
    requires total > 0 ==> lots != []
    ensures got == HandOut(lots, total)
  {
    got := seq(|lots|, _ => 0);
    for handed := 1 to total + 1
      invariant got == HandOut(lots, handed - 1)
    {
      var best := Best(lots, got, handed, |lots|);
      got := got[best := got[best] + 1];
    }
  }

  /** Each lot goes to the partition furthest behind its exact share, and among those equally far to
      the one that sorts first. From none handed out, this fixes every share. */
  lemma HandOutIsGreedy(lots: seq<nat>, total: nat) returns (b: nat)
    requires total > 0 && lots != []
    ensures b < |lots|
    ensures var got := HandOut(lots, total - 1);
      && HandOut(lots, total) == got[b := got[b] + 1]
      && (forall j :: 0 <= j < |lots| ==>
            lots[j] * total - got[j] * Sum(lots) <= lots[b] * total - got[b] * Sum(lots))
      && (forall j :: 0 <= j < b ==>
            lots[j] * total - got[j] * Sum(lots) < lots[b] * total - got[b] * Sum(lots))
    ensures forall j :: 0 <= j < |lots| ==> HandOut(lots, 0)[j] == 0
  {
    hide Sum;
    var got := HandOut(lots, total - 1);
    b := Best(lots, got, total, |lots|);
    forall j | 0 <= j < |lots| ensures Lag(lots, got, total, j) == lots[j] * total - got[j] * Sum(lots) {}
  }

  predicate NotBehind(lots: nat, got: nat, handed: nat, side: nat) {
    lots * handed <= got * side
  }

  // `got` is less than one lot above the exact share `lots * total / side`.
  predicate UnderALotAhead(lots: nat, got: nat, total: nat, side: nat) {
    got * side < lots * total + side
  }

  lemma {:induction false} NobodyBehind(lots: seq<nat>, got: seq<nat>, handed: nat, side: nat)
    requires |lots| == |got|
    requires forall i :: 0 <= i < |lots| ==> NotBehind(lots[i], got[i], handed, side)
    ensures NotBehind(SumNat(lots), SumNat(got), handed, side)
  {
    if lots != [] {
      NobodyBehind(lots[1..], got[1..], handed, side);
      MulDist(lots[0], Sum(lots[1..]), handed);
      MulDist(got[0], Sum(got[1..]), side);
    }
  }

  function SumNat(s: seq<nat>): (n: nat)
    ensures n == Sum(s)
  {
    if s == [] then 0 else s[0] + SumNat(s[1..])
  }

  // Someone is always behind: fewer lots are out than are due.
  lemma BestIsBehind(lots: seq<nat>, got: seq<nat>, total: nat)
    requires |lots| == |got| > 0 && total > 0 && Sum(lots) > 0 && Sum(got) == total - 1
    ensures var b := Best(lots, got, total, |lots|); !NotBehind(lots[b], got[b], total, Sum(lots))
  {
    var b, side := Best(lots, got, total, |lots|), Sum(lots);
    if NotBehind(lots[b], got[b], total, side) {
      forall i | 0 <= i < |lots| ensures NotBehind(lots[i], got[i], total, side) {
        assert Lag(lots, got, total, i) <= Lag(lots, got, total, b) <= 0;
      }
      NobodyBehind(lots, got, total, side);
      MulStrict(total - 1, total, side);
      assert false;
    }
  }

  lemma AheadStep(lots: nat, got: nat, total: nat, side: nat)
    requires total > 0
    ensures !NotBehind(lots, got, total, side) ==> UnderALotAhead(lots, got + 1, total, side)
    ensures UnderALotAhead(lots, got, total - 1, side) ==> UnderALotAhead(lots, got, total, side)
  {
    MulDist(got, 1, side);
    MulMono(total - 1, total, lots);
  }

  lemma NoneAhead(lots: nat, side: nat)
    requires side > 0
    ensures UnderALotAhead(lots, 0, 0, side)
  {}

  // Every lot is handed out, and nobody is a whole lot above the exact share.
  lemma {:induction false} HandOutUpper(lots: seq<nat>, total: nat)
    requires Sum(lots) > 0 && lots != []
    ensures Sum(HandOut(lots, total)) == total
    ensures forall i :: 0 <= i < |lots| ==>
              UnderALotAhead(lots[i], HandOut(lots, total)[i], total, Sum(lots))
  {
    hide Best, Sum, NotBehind, UnderALotAhead;
    var now := HandOut(lots, total);
    if total == 0 {
      SumZero(now);
      forall i | 0 <= i < |lots| ensures UnderALotAhead(lots[i], 0, 0, Sum(lots)) {
        NoneAhead(lots[i], Sum(lots));
      }
    } else {
      var got := HandOut(lots, total - 1);
      var b := Best(lots, got, total, |lots|);
      HandOutUpper(lots, total - 1);
      SumUpdate(got, b, got[b] + 1);
      BestIsBehind(lots, got, total);
      forall i | 0 <= i < |lots| ensures UnderALotAhead(lots[i], now[i], total, Sum(lots)) {
        AheadStep(lots[i], got[i], total, Sum(lots));
      }
    }
  }

  // The partitions holding lots on the side.
  function Holders(lots: seq<nat>): nat {
    if lots == [] then 0 else (if lots[0] > 0 then 1 else 0) + Holders(lots[1..])
  }

  function Excess(lots: nat, got: nat, total: nat, side: nat): int {
    got * side - lots * total
  }

  function TotalExcess(lots: seq<nat>, got: seq<nat>, total: nat, side: nat): int
    requires |lots| == |got|
  {
    if lots == [] then 0
    else Excess(lots[0], got[0], total, side) + TotalExcess(lots[1..], got[1..], total, side)
  }

  lemma {:induction false} TotalExcessSum(lots: seq<nat>, got: seq<nat>, total: nat, side: nat)
    requires |lots| == |got|
    ensures TotalExcess(lots, got, total, side) == Sum(got) * side - Sum(lots) * total
  {
    if lots != [] {
      TotalExcessSum(lots[1..], got[1..], total, side);
      MulDist(got[0], Sum(got[1..]), side);
      MulDist(lots[0], Sum(lots[1..]), total);
    }
  }

  // A partition with no lots gets nothing, which is what leaving it out of the side does.
  lemma NoLotsNoShare(got: nat, total: nat, side: nat)
    requires UnderALotAhead(0, got, total, side)
    ensures got == 0 && Excess(0, got, total, side) == 0
  {
    if side > 0 {
      MulCancel(got, 1, side);
    }
  }

  // Being less than a lot ahead everywhere bounds the whole excess, and with it how far any one
  // partition can be behind.
  lemma {:induction false} ExcessBound(lots: seq<nat>, got: seq<nat>, total: nat, side: nat)
    requires |lots| == |got| && side > 0
    requires forall i :: 0 <= i < |lots| ==> UnderALotAhead(lots[i], got[i], total, side)
    ensures TotalExcess(lots, got, total, side) <= Holders(lots) * (side - 1)
    ensures forall i :: 0 <= i < |lots| && lots[i] > 0 ==>
      TotalExcess(lots, got, total, side) <= Excess(lots[i], got[i], total, side) + (Holders(lots) - 1) * (side - 1)
  {
    if lots != [] {
      ExcessBound(lots[1..], got[1..], total, side);
      var rest := Holders(lots[1..]);
      MulDist(rest, 1, side - 1);
      MulDist(rest as int - 1, 1, side - 1);
      if lots[0] == 0 {
        NoLotsNoShare(got[0], total, side);
      } else {
        assert Excess(lots[0], got[0], total, side) <= side - 1;
      }
      forall i | 0 < i < |lots| && lots[i] > 0
        ensures TotalExcess(lots, got, total, side) <= Excess(lots[i], got[i], total, side)
          + (Holders(lots) - 1) * (side - 1)
      {
        assert lots[i] == lots[1..][i - 1] && got[i] == got[1..][i - 1];
      }
    }
  }

  // `got` is less than `lag` lots below the exact share.
  predicate LessBehind(lots: nat, got: nat, total: nat, side: nat, lag: int) {
    lots * total < got * side + lag * side
  }

  lemma NotFarBehind(lots: seq<nat>, got: seq<nat>, total: nat, i: nat)
    requires |lots| == |got| && i < |lots| && Sum(lots) > 0 && Sum(got) == total
    requires forall j :: 0 <= j < |lots| ==> UnderALotAhead(lots[j], got[j], total, Sum(lots))
    requires Holders(lots) >= 2
    ensures LessBehind(lots[i], got[i], total, Sum(lots), Holders(lots) - 1)
  {
    var side, more := Sum(lots), Holders(lots) - 1;
    MulMono(side - 1, side, more);
    MulMono(1, more, side);
    if lots[i] > 0 {
      TotalExcessSum(lots, got, total, side);
      ExcessBound(lots, got, total, side);
      MulDist(side - 1, 1, more);
    } else {
      assert lots[i] * total == 0;
    }
  }

  lemma WithinLots(lots: nat, got: nat, total: nat, side: nat)
    requires UnderALotAhead(lots, got, total, side) && total <= side && side > 0
    ensures got <= lots
  {
    MulMono(total, side, lots);
    MulDist(lots, 1, side);
    MulCancel(got, lots + 1, side);
  }

  /** The apportionment law: exact total, within the lots, under one lot above the exact share and
      under `n - 1` lots below it, and everything at the full total. */
  lemma HandOutApportions(lots: seq<nat>, total: nat)
    requires total <= Sum(lots)
    ensures total > 0 ==> lots != []
    ensures var got := HandOut(lots, total); var side := Sum(lots);
      && Sum(got) == total
      && (forall i :: 0 <= i < |lots| ==> got[i] <= lots[i])
      && (total == side ==> got == lots)
      && (side > 0 ==> forall i :: 0 <= i < |lots| ==> UnderALotAhead(lots[i], got[i], total, side))
      && (side > 0 && Holders(lots) >= 2 ==> forall i :: 0 <= i < |lots| ==>
            LessBehind(lots[i], got[i], total, side, Holders(lots) - 1))
  {
    var side := Sum(lots);
    if side == 0 {
      SumZero(HandOut(lots, total));
      SumSqueeze(seq(|lots|, _ => 0), lots);
    } else {
      assert lots != [];
      var got := HandOut(lots, total);
      HandOutUpper(lots, total);
      forall i | 0 <= i < |lots|
        ensures got[i] <= lots[i]
        ensures Holders(lots) >= 2 ==> LessBehind(lots[i], got[i], total, side, Holders(lots) - 1)
      {
        WithinLots(lots[i], got[i], total, side);
        if Holders(lots) >= 2 {
          NotFarBehind(lots, got, total, i);
        }
      }
      SumSqueeze(got, lots);
    }
  }

  // A larger total never takes a lot back.
  lemma {:induction false} HandOutGrows(lots: seq<nat>, less: nat, more: nat)
    requires less <= more && (more > 0 ==> lots != [])
    ensures forall i :: 0 <= i < |lots| ==> HandOut(lots, less)[i] <= HandOut(lots, more)[i]
    decreases more
  {
    if less < more {
      HandOutGrows(lots, less, more - 1);
    }
  }

  // ----- Total moves after a cumulative fill -----

  function Net(basis: Basis): int {
    Sum(Lots(basis))
  }

  // The lots of one side. A partition off the side enters with no lots, and the apportionment
  // gives such an entry nothing, which is what leaving it out does.
  function SideLots(sizes: seq<int>, long: bool, on: bool): (s: seq<nat>)
    ensures |s| == |sizes|
    ensures forall i :: 0 <= i < |s| ==>
              s[i] == if ((sizes[i] > 0) == long) == on then Abs(sizes[i]) else 0
  {
    seq(|sizes|, i requires 0 <= i < |sizes| =>
      if ((sizes[i] > 0) == long) == on then Abs(sizes[i]) else 0)
  }

  lemma {:induction false} SidesDifferByNet(sizes: seq<int>, long: bool)
    ensures Sum(SideLots(sizes, long, true)) - Sum(SideLots(sizes, long, false))
         == if long then Sum(sizes) else -Sum(sizes)
  {
    if sizes != [] {
      SidesDifferByNet(sizes[1..], long);
      assert SideLots(sizes, long, true)[1..] == SideLots(sizes[1..], long, true);
      assert SideLots(sizes, long, false)[1..] == SideLots(sizes[1..], long, false);
    }
  }

  // How far a side of `lots` has moved once `filled` of `net` lots are filled.
  function Lead(lots: nat, filled: nat, net: nat): nat
    requires net > 0
  {
    lots * filled / net
  }

  // With `withLots == net + against`, the side with the net leads the fill by exactly what the
  // other side moves.
  lemma NetFloor(withLots: nat, against: nat, net: nat, filled: nat)
    requires net > 0 && withLots == net + against
    ensures Lead(withLots, filled, net) - filled == Lead(against, filled, net)
    ensures filled <= net ==> Lead(withLots, filled, net) <= withLots && Lead(against, filled, net) <= against
    ensures filled == net ==> Lead(withLots, filled, net) == withLots
  {
    MulDist(against, net, filled);
    DivPlus(against * filled, filled, net);
    DivExact(against, net);
    DivExact(withLots, net);
    if filled <= net {
      MulMono(filled, net, against);
      MulMono(filled, net, withLots);
      DivMono(against * filled, against * net, net);
      DivMono(withLots * filled, withLots * net, net);
    }
  }

  lemma LeadGrows(lots: nat, less: nat, more: nat, net: nat)
    requires net > 0 && less <= more
    ensures Lead(lots, less, net) <= Lead(lots, more, net)
  {
    MulMono(less, more, lots);
    DivMono(lots * less, lots * more, net);
  }

  function WithMoved(basis: Basis, filled: nat): nat
    requires Net(basis) != 0
  {
    Lead(SumNat(SideLots(Lots(basis), Net(basis) > 0, true)), filled, Abs(Net(basis)))
  }

  lemma SideTotals(basis: Basis, filled: nat)
    requires Net(basis) != 0
    ensures var long := Net(basis) > 0; var s := Lots(basis);
      var w := SumNat(SideLots(s, long, true)); var a := SumNat(SideLots(s, long, false));
      && w == Abs(Net(basis)) + a
      && WithMoved(basis, filled) - filled == Lead(a, filled, Abs(Net(basis)))
      && (filled <= Abs(Net(basis)) ==> WithMoved(basis, filled) <= w && WithMoved(basis, filled) - filled <= a)
      && (filled == Abs(Net(basis)) ==> WithMoved(basis, filled) == w)
  {
    hide Lead;
    var long, s := Net(basis) > 0, Lots(basis);
    SidesDifferByNet(s, long);
    NetFloor(SumNat(SideLots(s, long, true)), SumNat(SideLots(s, long, false)), Abs(Net(basis)), filled);
  }

  function Got(basis: Basis, filled: nat, on: bool): (got: seq<nat>)
    requires Net(basis) != 0 && filled <= Abs(Net(basis))
    ensures |got| == |basis|
  {
    SideTotals(basis, filled);
    assert basis != [];
    HandOut(SideLots(Lots(basis), Net(basis) > 0, on), WithMoved(basis, filled) - if on then 0 else filled)
  }

  // Each partition's signed move toward zero once `filled` lots of the order have filled.
  function TotalMoves(basis: Basis, filled: nat): (t: seq<int>)
    requires Net(basis) != 0 && filled <= Abs(Net(basis))
    ensures |t| == |basis|
  {
    Signed(Lots(basis), Net(basis) > 0, Got(basis, filled, true), Got(basis, filled, false))
  }

  function Signed(s: seq<int>, long: bool, gotWith: seq<nat>, gotAgainst: seq<nat>): (t: seq<int>)
    requires |s| == |gotWith| == |gotAgainst|
    ensures |t| == |s|
  {
    seq<int>(|s|, i requires 0 <= i < |s| =>
      var got: int := if (s[i] > 0) == long then gotWith[i] else gotAgainst[i];
      if s[i] > 0 then -got else got)
  }

  lemma {:induction false} SignedSum(s: seq<int>, long: bool, gotWith: seq<nat>, gotAgainst: seq<nat>)
    requires |s| == |gotWith| == |gotAgainst|
    requires forall i :: 0 <= i < |s| && (s[i] > 0) != long ==> gotWith[i] == 0
    requires forall i :: 0 <= i < |s| && (s[i] > 0) == long ==> gotAgainst[i] == 0
    ensures Sum(Signed(s, long, gotWith, gotAgainst))
         == if long then Sum(gotAgainst) - Sum(gotWith) else Sum(gotWith) - Sum(gotAgainst)
  {
    if s != [] {
      SignedSum(s[1..], long, gotWith[1..], gotAgainst[1..]);
      assert Signed(s, long, gotWith, gotAgainst)[1..]
          == Signed(s[1..], long, gotWith[1..], gotAgainst[1..]);
    }
  }

  // `move` takes a partition of size `from` toward zero and never past it.
  predicate TowardZero(from: int, move: int) {
    if from >= 0 then -from <= move <= 0 else 0 <= move <= -from
  }

  lemma GotLaw(basis: Basis, filled: nat, on: bool)
    requires Net(basis) != 0 && filled <= Abs(Net(basis))
    ensures var side := SideLots(Lots(basis), Net(basis) > 0, on); var got := Got(basis, filled, on);
      && Sum(got) == WithMoved(basis, filled) - (if on then 0 else filled)
      && (forall i :: 0 <= i < |basis| ==> got[i] <= side[i])
      && (filled == Abs(Net(basis)) ==> got == side)
  {
    hide Lead, UnderALotAhead, LessBehind, HandOut;
    SideTotals(basis, filled);
    HandOutApportions(SideLots(Lots(basis), Net(basis) > 0, on), WithMoved(basis, filled) - if on then 0 else filled);
  }

  /** What the cumulative fill alone decides: the moves net to the fill, no partition passes zero,
      and a full fill leaves every partition flat, with or against the net. */
  lemma TotalMovesLaw(basis: Basis, filled: nat)
    requires Net(basis) != 0 && filled <= Abs(Net(basis))
    ensures var t := TotalMoves(basis, filled);
      && Sum(t) == (if Net(basis) > 0 then 0 - filled else filled)
      && (forall i :: 0 <= i < |basis| ==> TowardZero(basis[i].lots, t[i]))
      && (filled == Abs(Net(basis)) ==> forall i :: 0 <= i < |basis| ==> basis[i].lots + t[i] == 0)
  {
    hide WithMoved, Got, Sum;
    GotLaw(basis, filled, true);
    GotLaw(basis, filled, false);
    SignedSum(Lots(basis), Net(basis) > 0, Got(basis, filled, true), Got(basis, filled, false));
  }

  // Each partition moves by what its side's hand-out gives it.
  lemma MovesAt(basis: Basis, filled: nat, moved: nat)
    requires Net(basis) != 0 && filled <= Abs(Net(basis)) && moved == WithMoved(basis, filled) && moved >= filled
    ensures basis != []
    ensures var long := Net(basis) > 0;
      var with, against := SideLots(Lots(basis), long, true), SideLots(Lots(basis), long, false);
      forall i :: 0 <= i < |basis| ==>
        var got: int :=
          if (basis[i].lots > 0) == long then HandOut(with, moved)[i] else HandOut(against, moved - filled)[i];
        TotalMoves(basis, filled)[i] == if basis[i].lots > 0 then 0 - got else got
  {
    hide HandOut, WithMoved, SideLots;
    NoneNoNet(basis);
  }

  /** How fast each side moves. With `filled` of the net filled, the side with the net has handed out
      its own lots times `filled` over the net, rounded down, and the other side the rest; each side's
      lots go to its own partitions, toward zero. */
  lemma TotalMovesPace(basis: Basis, filled: nat)
    requires Net(basis) != 0 && filled <= Abs(Net(basis))
    ensures var long := Net(basis) > 0;
      var with, against := SideLots(Lots(basis), long, true), SideLots(Lots(basis), long, false);
      var moved := Sum(with) * filled / Abs(Net(basis));
      && basis != [] && 0 <= moved - filled && Sum(with) == Abs(Net(basis)) + Sum(against)
      && forall i :: 0 <= i < |basis| ==>
           var got: int :=
             if (basis[i].lots > 0) == long then HandOut(with, moved)[i] else HandOut(against, moved - filled)[i];
           TotalMoves(basis, filled)[i] == if basis[i].lots > 0 then 0 - got else got
  {
    hide HandOut, Sum, WithMoved, SideLots, Net, TotalMoves;
    SideTotals(basis, filled);
    PaceReads(basis, filled);
    MovesAt(basis, filled, WithMoved(basis, filled));
  }

  lemma PaceReads(basis: Basis, filled: nat)
    requires Net(basis) != 0
    ensures WithMoved(basis, filled) == Sum(SideLots(Lots(basis), Net(basis) > 0, true)) * filled / Abs(Net(basis))
    ensures Lead(SumNat(SideLots(Lots(basis), Net(basis) > 0, false)), filled, Abs(Net(basis))) >= 0
  {}

  lemma NoneNoNet(basis: Basis)
    ensures Net(basis) != 0 ==> basis != []
  {}

  lemma GotGrows(basis: Basis, less: nat, more: nat, on: bool)
    requires Net(basis) != 0 && less <= more <= Abs(Net(basis))
    ensures forall i :: 0 <= i < |basis| ==> Got(basis, less, on)[i] <= Got(basis, more, on)[i]
  {
    hide Lead, HandOut;
    SideTotals(basis, less);
    SideTotals(basis, more);
    var side := SideLots(Lots(basis), Net(basis) > 0, on);
    LeadGrows(SumNat(side), less, more, Abs(Net(basis)));
    HandOutGrows(side,
      WithMoved(basis, less) - (if on then 0 else less), WithMoved(basis, more) - if on then 0 else more);
  }

  // Later fills only take a partition further toward zero, never past it.
  lemma TotalMovesGrow(basis: Basis, less: nat, more: nat)
    requires Net(basis) != 0 && less <= more <= Abs(Net(basis))
    ensures forall i :: 0 <= i < |basis| ==>
      TowardZero(basis[i].lots + TotalMoves(basis, less)[i], TotalMoves(basis, more)[i] - TotalMoves(basis, less)[i])
  {
    hide WithMoved, Got, Sum;
    TotalMovesLaw(basis, less);
    TotalMovesLaw(basis, more);
    GotGrows(basis, less, more, true);
    GotGrows(basis, less, more, false);
  }

  // ----- One fill -----

  predicate DistinctOwners(parts: seq<Part>) {
    forall i, j :: 0 <= i < j < |parts| ==> parts[i].owner != parts[j].owner
  }

  function SplitRefusal(basis: Basis, side: Side, quantity: nat): Option<Refusal> {
    if Net(basis) == 0 then Some(NoNet)
    else if side.Sell? != (Net(basis) > 0) then Some(WithTheNet)
    else if quantity > Abs(Net(basis)) then Some(PastTheNet)
    else None
  }

  /** What an order must be to split: it trades toward the far side of zero no further than zero. */
  lemma RefusalLaw(basis: Basis, side: Side, quantity: nat)
    requires quantity > 0
    ensures var net, signed := Sum(Lots(basis)), if side.Buy? then quantity else 0 - quantity;
      && (SplitRefusal(basis, side, quantity) == None <==>
            if net > 0 then net > net + signed >= 0 else net < 0 && net < net + signed <= 0)
      && (SplitRefusal(basis, side, quantity) == Some(NoNet) <==> net == 0)
      && (SplitRefusal(basis, side, quantity) == Some(WithTheNet) <==>
            (net > 0 && signed > 0) || (net < 0 && signed < 0))
  {}

  function PieceSizes(basis: Basis, cum: nat, quantity: nat): (p: seq<int>)
    requires Net(basis) != 0 && quantity <= cum <= Abs(Net(basis))
    ensures |p| == |basis|
  {
    var before, after := TotalMoves(basis, cum - quantity), TotalMoves(basis, cum);
    seq(|basis|, i requires 0 <= i < |basis| => after[i] - before[i])
  }

  // The partitions a fill moves, in basis order; a partition it does not move is left out.
  function Moved(basis: Basis, sizes: seq<int>): (m: seq<Part>)
    requires |basis| == |sizes|
    ensures |m| <= |basis|
    ensures forall k :: 0 <= k < |m| ==> m[k].lots != 0
  {
    if basis == [] then []
    else if sizes[0] == 0 then Moved(basis[1..], sizes[1..])
    else [Part(basis[0].owner, sizes[0])] + Moved(basis[1..], sizes[1..])
  }

  function Split(basis: Basis, cum: nat, quantity: nat, fee: real, step: real): (r: Result<seq<Move>>)
    requires quantity <= cum && step > 0.0
  {
    if Net(basis) == 0 then Err(ZeroNet)
    else if cum > Abs(Net(basis)) then Err(FilledPastNet)
    else
      var moved := Moved(basis, PieceSizes(basis, cum, quantity));
      if moved == [] then Err(Nothing)
      else
        var shares := SplitFee(Weights(moved), fee, step);
        Ok(seq(|moved|, k requires 0 <= k < |moved| => Move(moved[k].owner, moved[k].lots, shares[k])))
  }

  // ----- The fee -----

  function Weights(moved: seq<Part>): (w: seq<nat>)
    requires forall k :: 0 <= k < |moved| ==> moved[k].lots != 0
    ensures |w| == |moved|
    ensures forall k :: 0 <= k < |w| ==> w[k] == Abs(moved[k].lots) > 0
  {
    seq(|moved|, k requires 0 <= k < |moved| => Abs(moved[k].lots))
  }

  function HalfEven(y: real): int {
    var q := y.Floor;
    if y - q as real < 0.5 || (y - q as real == 0.5 && q % 2 == 0) then q else q + 1
  }

  // Round half to even to a multiple of `step`.
  function Quantize(x: real, step: real): real
    requires step > 0.0
  {
    HalfEven(x / step) as real * step
  }

  predicate Near(rounded: real, exact: real, step: real) {
    -step <= 2.0 * (rounded - exact) <= step
  }

  lemma HalfEvenNear(y: real)
    ensures -0.5 <= HalfEven(y) as real - y <= 0.5
  {}

  lemma ScaledNear(k: real, y: real, step: real, x: real)
    requires step > 0.0 && -0.5 <= k - y <= 0.5 && x == y * step
    ensures Near(k * step, x, step)
  {
    MulNonNegR(k - (y - 0.5), step);
    MulNonNegR(y + 0.5 - k, step);
    MulSubR(k, y - 0.5, step);
    MulSubR(y + 0.5, k, step);
    MulSubR(y, 0.5, step);
    MulSubR(y, -0.5, step);
  }

  lemma QuantizeNear(x: real, step: real)
    requires step > 0.0
    ensures Near(Quantize(x, step), x, step)
  {
    hide HalfEven, Near;
    HalfEvenNear(x / step);
    var k := HalfEven(x / step) as real;
    assert Quantize(x, step) == k * step;
    ScaledNear(k, x / step, step, x);
  }

  // Rounding lands on a multiple of the step, the nearest one, and on the even one of two.
  lemma QuantizeLaw(x: real, step: real) returns (k: int)
    requires step > 0.0
    ensures Quantize(x, step) == k as real * step
    ensures -0.5 <= k as real - x / step <= 0.5
    ensures k as real - x / step == 0.5 || k as real - x / step == -0.5 ==> k % 2 == 0
  {
    k := HalfEven(x / step);
    HalfEvenNear(x / step);
  }

  function Largest(w: seq<nat>, n: nat): (b: nat)
    requires 0 < n <= |w|
    ensures b < n
    ensures forall j :: 0 <= j < n ==> w[j] <= w[b]
    ensures forall j :: 0 <= j < b ==> w[j] < w[b]
  {
    if n == 1 then 0 else
      var b := Largest(w, n - 1);
      if w[n - 1] > w[b] then n - 1 else b
  }

  function Share(w: seq<nat>, fee: real, k: nat): real
    requires k < |w| && Sum(w) > 0
  {
    fee * w[k] as real / Sum(w) as real
  }

  function RoundedShares(w: seq<nat>, fee: real, step: real): (s: seq<real>)
    requires Sum(w) > 0 && step > 0.0
    ensures |s| == |w|
    ensures forall k :: 0 <= k < |w| ==> s[k] == Quantize(Share(w, fee, k), step)
  {
    seq(|w|, k requires 0 <= k < |w| => Quantize(Share(w, fee, k), step))
  }

  function SplitFee(w: seq<nat>, fee: real, step: real): (s: seq<real>)
    requires w != [] && (forall k :: 0 <= k < |w| ==> w[k] > 0) && step > 0.0
    ensures |s| == |w|
  {
    SumPositive(w);
    var shares := RoundedShares(w, fee, step);
    var largest := Largest(w, |w|);
    shares[largest := shares[largest] + (fee - SumR(shares))]
  }

  lemma SumPositive(w: seq<nat>)
    requires w != [] && forall k :: 0 <= k < |w| ==> w[k] > 0
    ensures Sum(w) > 0
  {
    assert Sum(w) == w[0] + SumNat(w[1..]);
  }

  /** The shares sum to the fee exactly: the largest mover absorbs the rounding. */
  lemma SplitFeeSums(w: seq<nat>, fee: real, step: real)
    requires w != [] && (forall k :: 0 <= k < |w| ==> w[k] > 0) && step > 0.0
    ensures SumR(SplitFee(w, fee, step)) == fee
  {
    hide Quantize, Share;
    SumPositive(w);
    var shares, b := RoundedShares(w, fee, step), Largest(w, |w|);
    SumRUpdate(shares, b, shares[b] + (fee - SumR(shares)));
  }

  /** Every other share is within half a step of its exact proportion. */
  lemma SplitFeeProportion(w: seq<nat>, fee: real, step: real, k: nat)
    requires (forall k :: 0 <= k < |w| ==> w[k] > 0) && step > 0.0
    requires k < |w| && k != Largest(w, |w|)
    ensures Sum(w) > 0
    ensures Near(SplitFee(w, fee, step)[k], Share(w, fee, k), step)
  {
    hide Near, Quantize, Share;
    SumPositive(w);
    QuantizeNear(Share(w, fee, k), step);
  }

  // `n` roundings, each of half a step.
  function Rounding(n: nat, step: real): real {
    n as real * step / 2.0
  }

  lemma OneRounding(n: nat, step: real)
    ensures Rounding(n + 1, step) == Rounding(n, step) + step / 2.0 && Rounding(0, step) == 0.0
  {}

  function ExactShares(w: seq<nat>, fee: real): (s: seq<real>)
    requires Sum(w) > 0
    ensures |s| == |w| && forall k :: 0 <= k < |w| ==> s[k] == Share(w, fee, k)
  {
    seq(|w|, k requires 0 <= k < |w| => Share(w, fee, k))
  }

  lemma {:induction false} ScaledSum(w: seq<nat>, s: seq<real>, scale: real)
    requires |s| == |w| && forall k :: 0 <= k < |w| ==> s[k] == Times(w[k] as real, scale)
    ensures SumR(s) == Times(Sum(w) as real, scale)
  {
    hide Times;
    TimesAdds(0.0, 0.0, scale);
    if w != [] {
      ScaledSum(w[1..], s[1..], scale);
      TimesAdds(w[0] as real, Sum(w[1..]) as real, scale);
    }
  }

  lemma ShareIsScaled(w: seq<nat>, fee: real, k: nat)
    requires k < |w| && Sum(w) > 0
    ensures Share(w, fee, k) == Times(w[k] as real, fee / Sum(w) as real)
  {
    var n, total := w[k] as real, Sum(w) as real;
    assert fee * n / total * total == fee * n;
    assert n * (fee / total) * total == n * (fee / total * total) == n * fee;
  }

  lemma ExactSharesSum(w: seq<nat>, fee: real)
    requires Sum(w) > 0
    ensures SumR(ExactShares(w, fee)) == fee
  {
    hide Share, Times;
    var total := Sum(w) as real;
    forall k | 0 <= k < |w| ensures ExactShares(w, fee)[k] == Times(w[k] as real, fee / total) {
      ShareIsScaled(w, fee, k);
    }
    ScaledSum(w, ExactShares(w, fee), fee / total);
    WholeBack(total, fee);
  }

  lemma WholeBack(total: real, fee: real)
    requires total > 0.0
    ensures Times(total, fee / total) == fee
  {}

  lemma {:induction false} NearSums(a: seq<real>, b: seq<real>, step: real)
    requires |a| == |b| && forall k :: 0 <= k < |a| ==> Near(a[k], b[k], step)
    ensures AbsR(SumR(a) - SumR(b)) <= Rounding(|a|, step)
  {
    hide Rounding;
    OneRounding(if a == [] then 0 else |a| - 1, step);
    if a != [] {
      NearSums(a[1..], b[1..], step);
    }
  }

  lemma SumRWithout(s: seq<real>, i: nat)
    requires i < |s|
    ensures SumR(s) == s[i] + SumR(s[..i] + s[i + 1..])
  {
    SumRAppend(s[..i], s[i + 1..]);
    SumRAppend(s[..i], s[i..]);
    assert s == s[..i] + s[i..] && s[i..][1..] == s[i + 1..];
  }

  // What the largest mover absorbs is the others' rounding, no more.
  lemma SplitFeeResidue(w: seq<nat>, fee: real, step: real)
    requires w != [] && (forall k :: 0 <= k < |w| ==> w[k] > 0) && step > 0.0
    ensures Sum(w) > 0
    ensures var b := Largest(w, |w|); AbsR(SplitFee(w, fee, step)[b] - Share(w, fee, b)) <= Rounding(|w| - 1, step)
  {
    hide Near, Share, SplitFee, Rounding, SumR, Sum, Largest;
    SumPositive(w);
    var b, split, exact := Largest(w, |w|), SplitFee(w, fee, step), ExactShares(w, fee);
    SplitFeeSums(w, fee, step);
    ExactSharesSum(w, fee);
    SumRWithout(split, b);
    SumRWithout(exact, b);
    var a, e := split[..b] + split[b + 1..], exact[..b] + exact[b + 1..];
    forall k | 0 <= k < |a| ensures Near(a[k], e[k], step) {
      var at := if k < b then k else k + 1;
      SplitFeeProportion(w, fee, step, at);
      assert a[k] == split[at] && e[k] == exact[at];
    }
    NearSums(a, e, step);
  }

  /** The shares on the movers: together the fee, each but the largest mover's within half a step of
      its exact proportion, and the largest mover's off by no more than the others' rounding. */
  method SplitFeeShares(w: seq<nat>, fee: real, step: real) returns (shares: seq<real>)
    requires w != [] && (forall k :: 0 <= k < |w| ==> w[k] > 0) && step > 0.0
    ensures shares == SplitFee(w, fee, step)
    ensures Sum(w) > 0 && SumR(shares) == fee
    ensures forall k :: 0 <= k < |w| && k != Largest(w, |w|) ==> Near(shares[k], Share(w, fee, k), step)
    ensures AbsR(shares[Largest(w, |w|)] - Share(w, fee, Largest(w, |w|))) <= Rounding(|w| - 1, step)
  {
    hide Near, Quantize, Share, Rounding;
    SumPositive(w);
    shares := RoundedShares(w, fee, step);
    var largest := Largest(w, |w|);
    shares := shares[largest := shares[largest] + (fee - SumR(shares))];
    SplitFeeSums(w, fee, step);
    forall k | 0 <= k < |w| && k != largest ensures Near(shares[k], Share(w, fee, k), step) {
      SplitFeeProportion(w, fee, step, k);
    }
    SplitFeeResidue(w, fee, step);
  }

  // ----- Whole orders -----

  // Partition sizes after the order has filled `cum` lots.
  function Held(basis: Basis, cum: nat): (h: seq<int>)
    requires Net(basis) != 0 && cum <= Abs(Net(basis))
    ensures |h| == |basis|
    ensures forall i :: 0 <= i < |h| ==> h[i] == basis[i].lots + TotalMoves(basis, cum)[i]
  {
    seq(|basis|, i requires 0 <= i < |basis| => basis[i].lots + TotalMoves(basis, cum)[i])
  }

  lemma {:induction false} MovedSum(basis: Basis, sizes: seq<int>)
    requires |basis| == |sizes|
    ensures Sum(Lots(Moved(basis, sizes))) == Sum(sizes)
  {
    if basis != [] {
      MovedSum(basis[1..], sizes[1..]);
      var rest := Moved(basis[1..], sizes[1..]);
      if sizes[0] != 0 {
        assert Lots(Moved(basis, sizes)) == [sizes[0]] + Lots(rest);
      }
    }
  }

  // Every listed move is one partition's whole piece.
  lemma {:induction false} MovedFrom(basis: Basis, sizes: seq<int>, k: nat) returns (i: nat)
    requires |basis| == |sizes| && k < |Moved(basis, sizes)|
    ensures k <= i < |basis| && Moved(basis, sizes)[k] == Part(basis[i].owner, sizes[i])
  {
    if sizes[0] == 0 {
      i := MovedFrom(basis[1..], sizes[1..], k);
      i := i + 1;
    } else if k == 0 {
      i := 0;
    } else {
      i := MovedFrom(basis[1..], sizes[1..], k - 1);
      i := i + 1;
    }
  }

  // One fill's pieces net to the fill, and each takes its partition toward zero, never past it.
  lemma PiecesLaw(basis: Basis, cum: nat, quantity: nat)
    requires Net(basis) != 0 && quantity <= cum <= Abs(Net(basis))
    ensures var p := PieceSizes(basis, cum, quantity);
      && Sum(p) == (if Net(basis) > 0 then 0 - quantity else quantity)
      && forall i :: 0 <= i < |basis| ==> TowardZero(Held(basis, cum - quantity)[i], p[i])
  {
    hide TotalMoves, Sum;
    TotalMovesLaw(basis, cum - quantity);
    TotalMovesLaw(basis, cum);
    TotalMovesGrow(basis, cum - quantity, cum);
    SumDiff(TotalMoves(basis, cum), TotalMoves(basis, cum - quantity), PieceSizes(basis, cum, quantity));
  }

  function MoveSizes(moves: seq<Move>): (s: seq<int>)
    ensures |s| == |moves|
  {
    seq(|moves|, k requires 0 <= k < |moves| => moves[k].size)
  }

  function MoveFees(moves: seq<Move>): (s: seq<real>)
    ensures |s| == |moves|
  {
    seq(|moves|, k requires 0 <= k < |moves| => moves[k].fee)
  }

  /** One fill of a flatten order. The split answers exactly when the fill stays within a net to
      close; its sizes sum to the signed fill and its fees to the fee. */
  lemma SplitLaw(basis: Basis, cum: nat, quantity: nat, fee: real, step: real)
    requires 0 < quantity <= cum && step > 0.0
    ensures var r := Split(basis, cum, quantity, fee, step);
      && (r.Ok? <==> Net(basis) != 0 && cum <= Abs(Net(basis)))
      && (r.Ok? ==>
            && r.value != []
            && Sum(MoveSizes(r.value)) == (if Net(basis) > 0 then 0 - quantity else quantity)
            && SumR(MoveFees(r.value)) == fee)
  {
    hide PieceSizes, SplitFee, Sum, SumR, TowardZero;
    if Net(basis) != 0 && cum <= Abs(Net(basis)) {
      var moved := Moved(basis, PieceSizes(basis, cum, quantity));
      PiecesLaw(basis, cum, quantity);
      MovedSum(basis, PieceSizes(basis, cum, quantity));
      if moved == [] {
        SumZero(Lots(moved));
        assert false;
      }
      SplitFeeSums(Weights(moved), fee, step);
      var moves := Split(basis, cum, quantity, fee, step).value;
      assert MoveSizes(moves) == Lots(moved);
      assert MoveFees(moves) == SplitFee(Weights(moved), fee, step);
    }
  }

  function MoversOf(moves: seq<Move>): set<Owner> {
    set k | 0 <= k < |moves| :: moves[k].owner
  }

  // The owners whose total move a fill of `quantity` up to `cum` changes.
  function ChangedBy(basis: Basis, cum: nat, quantity: nat): set<Owner>
    requires Net(basis) != 0 && quantity <= cum <= Abs(Net(basis))
  {
    set i | 0 <= i < |basis| && TotalMoves(basis, cum)[i] != TotalMoves(basis, cum - quantity)[i] :: basis[i].owner
  }

  /** Whose a move is. The moves are the partitions whose total move this fill changes, each by that
      change, and the fee is shared on those sizes, share by share. */
  lemma SplitMoves(basis: Basis, cum: nat, quantity: nat, fee: real, step: real)
    requires 0 < quantity <= cum <= Abs(Net(basis)) && Net(basis) != 0 && step > 0.0 && DistinctOwners(basis)
    ensures Split(basis, cum, quantity, fee, step).Ok?
    ensures var moves := Split(basis, cum, quantity, fee, step).value;
      && moves != [] && (forall k :: 0 <= k < |moves| ==> moves[k].size != 0)
      && MoveFees(moves) == SplitFee(seq(|moves|, k requires 0 <= k < |moves| => Abs(moves[k].size)), fee, step)
      && MoversOf(moves) == ChangedBy(basis, cum, quantity)
      && (forall i, k :: 0 <= i < |basis| && 0 <= k < |moves| && basis[i].owner == moves[k].owner ==>
            moves[k].size == TotalMoves(basis, cum)[i] - TotalMoves(basis, cum - quantity)[i])
  {
    hide TotalMoves, SplitFee, Sum, Weights, Net, DistinctOwners, Split, Moved, MoversOf, ChangedBy;
    SplitLaw(basis, cum, quantity, fee, step);
    SplitReads(basis, cum, quantity, fee, step);
    var moves := Split(basis, cum, quantity, fee, step).value;
    MoversChange(basis, cum, quantity, moves);
    forall i, k | 0 <= i < |basis| && 0 <= k < |moves| && basis[i].owner == moves[k].owner
      ensures moves[k].size == TotalMoves(basis, cum)[i] - TotalMoves(basis, cum - quantity)[i]
    {
      var at := MovedFrom(basis, PieceSizes(basis, cum, quantity), k);
      SameOwner(basis, i, at);
    }
  }

  lemma MoversChange(basis: Basis, cum: nat, quantity: nat, moves: seq<Move>)
    requires Net(basis) != 0 && quantity <= cum <= Abs(Net(basis))
    requires var moved := Moved(basis, PieceSizes(basis, cum, quantity));
      |moves| == |moved| && forall k :: 0 <= k < |moves| ==> moves[k].owner == moved[k].owner
    ensures MoversOf(moves) == ChangedBy(basis, cum, quantity)
  {
    hide TotalMoves, Net, Moved;
    var sizes := PieceSizes(basis, cum, quantity);
    forall owner | owner in MoversOf(moves) ensures owner in ChangedBy(basis, cum, quantity) {
      var k :| 0 <= k < |moves| && moves[k].owner == owner;
      var i := MovedFrom(basis, sizes, k);
      assert sizes[i] != 0 && basis[i].owner == owner;
    }
    forall owner | owner in ChangedBy(basis, cum, quantity) ensures owner in MoversOf(moves) {
      var i :| 0 <= i < |basis| && sizes[i] != 0 && basis[i].owner == owner;
      var k := MovedTo(basis, sizes, i);
      assert moves[k].owner == owner;
    }
  }

  // The moves beside the partitions they come from.
  lemma SplitReads(basis: Basis, cum: nat, quantity: nat, fee: real, step: real)
    requires quantity <= cum <= Abs(Net(basis)) && step > 0.0 && Split(basis, cum, quantity, fee, step).Ok?
    ensures Net(basis) != 0
    ensures var moves := Split(basis, cum, quantity, fee, step).value;
      var moved := Moved(basis, PieceSizes(basis, cum, quantity));
      && |moves| == |moved| && moves != []
      && (forall k :: 0 <= k < |moves| ==> moves[k].owner == moved[k].owner && moves[k].size == moved[k].lots != 0)
      && MoveFees(moves) == SplitFee(seq(|moves|, k requires 0 <= k < |moves| => Abs(moves[k].size)), fee, step)
  {
    hide PieceSizes, SplitFee, Weights, Moved;
    var moves := Split(basis, cum, quantity, fee, step).value;
    var moved := Moved(basis, PieceSizes(basis, cum, quantity));
    assert MoveFees(moves) == SplitFee(Weights(moved), fee, step);
    assert Weights(moved) == seq(|moves|, k requires 0 <= k < |moves| => Abs(moves[k].size));
  }

  lemma SameOwner(basis: Basis, i: nat, j: nat)
    requires DistinctOwners(basis) && i < |basis| && j < |basis| && basis[i].owner == basis[j].owner
    ensures i == j
  {}

  // And every partition with a piece is listed.
  lemma {:induction false} MovedTo(basis: Basis, sizes: seq<int>, i: nat) returns (k: nat)
    requires |basis| == |sizes| && i < |basis| && sizes[i] != 0
    ensures k < |Moved(basis, sizes)| && Moved(basis, sizes)[k] == Part(basis[i].owner, sizes[i])
  {
    if i == 0 {
      k := 0;
    } else {
      k := MovedTo(basis[1..], sizes[1..], i - 1);
      k := if sizes[0] == 0 then k else k + 1;
    }
  }

  function Total(fills: seq<nat>): nat {
    if fills == [] then 0 else Total(fills[..|fills| - 1]) + fills[|fills| - 1]
  }

  // The partition sizes after booking each fill's pieces in turn.
  function BookFills(basis: Basis, fills: seq<nat>): (h: seq<int>)
    requires Net(basis) != 0 && Total(fills) <= Abs(Net(basis))
    ensures |h| == |basis|
  {
    if fills == [] then Lots(basis) else
      var h := BookFills(basis, fills[..|fills| - 1]);
      var p := PieceSizes(basis, Total(fills), fills[|fills| - 1]);
      seq(|h|, i requires 0 <= i < |h| => h[i] + p[i])
  }

  /** However an order is chopped into fills, the partitions end where its cumulative fill says,
      between their starting size and zero, and flat once the whole net has filled. */
  lemma {:induction false} ChoppingLaw(basis: Basis, fills: seq<nat>)
    requires Net(basis) != 0 && Total(fills) <= Abs(Net(basis))
    ensures BookFills(basis, fills) == Held(basis, Total(fills))
    ensures forall i :: 0 <= i < |basis| ==>
              TowardZero(basis[i].lots, BookFills(basis, fills)[i] - basis[i].lots)
    ensures Total(fills) == Abs(Net(basis)) ==> forall i :: 0 <= i < |basis| ==> BookFills(basis, fills)[i] == 0
  {
    hide TotalMoves, Sum;
    TotalMovesLaw(basis, Total(fills));
    if fills == [] {
      NothingFilled(basis);
    } else {
      ChoppingLaw(basis, fills[..|fills| - 1]);
    }
  }

  lemma NothingFilled(basis: Basis)
    requires Net(basis) != 0
    ensures forall i :: 0 <= i < |basis| ==> TotalMoves(basis, 0)[i] == 0
  {
    hide Lead, HandOut, SideLots;
    SideTotals(basis, 0);
    LeadsNothing(SumNat(SideLots(Lots(basis), Net(basis) > 0, true)), Abs(Net(basis)));
    NothingHanded(SideLots(Lots(basis), Net(basis) > 0, true));
    NothingHanded(SideLots(Lots(basis), Net(basis) > 0, false));
  }

  lemma LeadsNothing(lots: nat, net: nat)
    requires net > 0
    ensures Lead(lots, 0, net) == 0
  {
    DivExact(0, net);
  }

  lemma NothingHanded(lots: seq<nat>)
    ensures forall i :: 0 <= i < |lots| ==> HandOut(lots, 0)[i] == 0
  {}

  /** An order `split_refusal` accepts never meets a split error, whatever its fills. */
  lemma AcceptedOrderSplits(basis: Basis, side: Side, quantity: nat, fills: seq<nat>, k: nat, fee: real, step: real)
    requires SplitRefusal(basis, side, quantity) == None
    requires k < |fills| && fills[k] > 0 && Total(fills) <= quantity && step > 0.0
    ensures fills[k] <= Total(fills[..k + 1])
    ensures Split(basis, Total(fills[..k + 1]), fills[k], fee, step).Ok?
  {
    hide Split;
    TotalPrefix(fills, k + 1);
    assert fills[..k + 1][..k] == fills[..k];
    SplitLaw(basis, Total(fills[..k + 1]), fills[k], fee, step);
  }

  lemma {:induction false} TotalPrefix(fills: seq<nat>, k: nat)
    requires k <= |fills|
    ensures Total(fills[..k]) <= Total(fills)
  {
    if k < |fills| {
      TotalPrefix(fills[..|fills| - 1], k);
      assert fills[..|fills| - 1][..k] == fills[..k];
    } else {
      assert fills[..k] == fills;
    }
  }
}
