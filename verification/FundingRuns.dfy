// Funding in the recovery machine: which boundaries a run books, and what they move.

module FundingRuns {
  import opened Domain
  import opened Sums
  import opened Ledger
  import Sagas
  import opened Recovery
  import G = Funding

  // The boundaries of a symbol in a log, in order.
  function BoundariesIn(log: seq<Booking>, s: Symbol): seq<int> {
    if log == [] then [] else
      var before, b := BoundariesIn(log[..|log| - 1], s), log[|log| - 1];
      if b.FundingBooked? && b.symbol == s then before + [b.boundary] else before
  }

  // And what each of them paid.
  function AmountsIn(log: seq<Booking>, s: Symbol): (amounts: seq<real>)
    ensures |amounts| == |BoundariesIn(log, s)|
  {
    if log == [] then [] else
      var before, b := AmountsIn(log[..|log| - 1], s), log[|log| - 1];
      if b.FundingBooked? && b.symbol == s then before + [b.amount] else before
  }

  function LogGate(log: seq<Booking>, s: Symbol): G.Gate {
    G.Gate(MarkIn(log, s), BoundariesIn(log, s))
  }

  // The deliveries a run settled: gated where they were folded, or folded and then written. One a
  // crash cut off between the two is not among them.
  ghost function SettledBy(c: Config, e: Engine, ev: Event, s: Symbol): seq<int> {
    if e.memory.None? then [] else
      match e.memory.value.pending
      case Some(p) =>
        if ev.Written? && p.booking.FundingBooked? && p.booking.symbol == s then [p.booking.boundary] else []
      case None =>
        if ev.FundingFolded? && ev.symbol == s && Gated(c, e.durable.marks, s, ev.boundary) then [ev.boundary] else []
  }

  ghost function Settled(c: Config, events: seq<Event>, s: Symbol): seq<int>
    requires c.step > 0.0
  {
    if events == [] then [] else
      var init := events[..|events| - 1];
      Settled(c, init, s) + SettledBy(c, RunFrom(c, init), events[|events| - 1], s)
  }

  lemma LogGateGrows(log: seq<Booking>, b: Booking, s: Symbol)
    ensures LogGate(log + [b], s) ==
      if b.FundingBooked? && b.symbol == s then G.Gate(Some(b.boundary), BoundariesIn(log, s) + [b.boundary])
      else LogGate(log, s)
  {
    assert (log + [b])[..|log|] == log;
  }

  lemma OneDelivery(g: G.Gate, genesis: int, b: int)
    ensures G.DeliverAll(g, genesis, [b]) == G.Deliver(g, genesis, b) && G.DeliverAll(g, genesis, []) == g
  {
    assert [b][..0] == [];
    assert G.DeliverAll(g, genesis, [b][..0]) == g;
  }

  // Only a write lengthens the log.
  lemma LogOfNext(c: Config, e: Engine, ev: Event)
    requires c.step > 0.0
    ensures var next := Next(c, e, ev);
      if e.memory.Some? && e.memory.value.pending.Some? && ev.Written? then
        var b := e.memory.value.pending.value.booking;
        next.log == e.log + [b] || (b.FillBooked? && next == e)
      else next.log == e.log
  {
    hide Sagas.Attempt, FillsOf, TakeAll, BookFunding, ExposedKeys, WriteRows, HealedBook, Sagas.Handle, KeysOf;
  }

  // What the gate at a fold is, read off the log; and a fold under way is past it.
  lemma GateOfLog(c: Config, e: Engine, s: Symbol)
    requires c.step > 0.0 && Sound(c, e)
    ensures MarkIn(e.log, s) == if s in e.durable.marks then Some(e.durable.marks[s]) else None
    ensures e.memory.Some? && e.memory.value.pending.Some? ==>
      Recovery.Bookable(c, e.log, e.memory.value.pending.value.booking)
  {
    hide Replay, AgreeOff, AllReflect, SeenBooked, AllPlaced, Recovery.Bookable, MarkIn;
    if e.memory.Some? && e.memory.value.pending.Some? {
      LogGrows(e.log, e.memory.value.pending.value.booking);
    }
  }

  // One event of the machine is one delivery to the gate, or none.
  lemma StepDelivers(c: Config, e: Engine, ev: Event, s: Symbol)
    requires c.step > 0.0 && Sound(c, e)
    ensures LogGate(Next(c, e, ev).log, s) == G.DeliverAll(LogGate(e.log, s), c.genesisTs, SettledBy(c, e, ev, s))
  {
    hide Sound, Next, BoundariesIn, MarkIn, G.DeliverAll, FillsOf, Turns;
    LogOfNext(c, e, ev);
    GateOfLog(c, e, s);
    OneDelivery(LogGate(e.log, s), c.genesisTs, if ev.FundingFolded? then ev.boundary else 0);
    if e.memory.Some? && e.memory.value.pending.Some? {
      var b := e.memory.value.pending.value.booking;
      LogGateGrows(e.log, b, s);
      OneDelivery(LogGate(e.log, s), c.genesisTs, if b.FundingBooked? then b.boundary else 0);
    }
  }

  lemma {:induction false} DeliverAllAppend(g: G.Gate, genesis: int, a: seq<int>, b: seq<int>)
    ensures G.DeliverAll(g, genesis, a + b) == G.DeliverAll(G.DeliverAll(g, genesis, a), genesis, b)
  {
    if b == [] {
      assert a + b == a;
    } else {
      DeliverAllAppend(g, genesis, a, b[..|b| - 1]);
      assert (a + b)[..|a + b| - 1] == a + b[..|b| - 1];
    }
  }

  /** A run of the machine, crashes and replays included, is the gate fed the deliveries it settled: the
      log books exactly the boundaries the gate passes, in its order, behind the same watermark. */
  lemma {:induction false} RunDelivers(c: Config, events: seq<Event>, s: Symbol)
    requires Good(c)
    ensures LogGate(RunFrom(c, events).log, s)
         == G.DeliverAll(G.Gate(None, []), c.genesisTs, Settled(c, events, s))
  {
    hide Next, SettledBy, LogGate;
    if events == [] {
      assert LogGate([], s) == G.Gate(None, []) by {
        NothingLogged(s);
      }
    } else {
      var init, ev := events[..|events| - 1], events[|events| - 1];
      var e := RunFrom(c, init);
      EveryRunSound(c, init);
      RunDelivers(c, init, s);
      StepDelivers(c, e, ev, s);
      DeliverAllAppend(G.Gate(None, []), c.genesisTs, Settled(c, init, s), SettledBy(c, e, ev, s));
    }
  }

  lemma NothingLogged(s: Symbol)
    ensures LogGate([], s) == G.Gate(None, [])
  {}

  /** Funding exactly once, of the ledger: on any run whose deliveries resume an ascending schedule, the
      log's boundaries of the symbol are the schedule's after genesis, each once and in order, up to
      where the deliveries got. */
  lemma FundingOnceInRuns(c: Config, events: seq<Event>, s: Symbol, due: seq<int>) returns (n: nat)
    requires Good(c) && G.Ascending(due) && G.Resumed(due, Settled(c, events, s))
    ensures n <= |due|
    ensures var booked := BoundariesIn(RunFrom(c, events).log, s);
      && booked == G.AfterGenesis(c.genesisTs, due[..n]) && G.Ascending(booked)
      && forall b :: b in booked <==> b in Settled(c, events, s) && b > c.genesisTs
  {
    hide RunFrom, Settled;
    RunDelivers(c, events, s);
    n := G.ResumedThrough(c.genesisTs, due, Settled(c, events, s));
    G.AfterGenesisReads(c.genesisTs, due[..n]);
  }

  /** In the lives of a process: each starts no later than the boundary the lives before it got to, and a
      crash loses at most the delivery under way. Then the log ends where the furthest life did. */
  lemma FundingAcrossLives(c: Config, events: seq<Event>, s: Symbol, due: seq<int>, lives: seq<G.Life>)
    requires Good(c) && G.Ascending(due) && G.Resumes(lives, |due|)
    requires Settled(c, events, s) == G.Delivered(due, lives)
    ensures G.Furthest(lives) <= |due|
    ensures BoundariesIn(RunFrom(c, events).log, s) == G.AfterGenesis(c.genesisTs, due[..G.Furthest(lives)])
  {
    hide RunFrom, Settled;
    RunDelivers(c, events, s);
    G.FundingOnce(c.genesisTs, due, lives);
  }

  /** And on any run at all: a boundary is never booked twice, a settled one is booked exactly where its
      first delivery was in time, and none is lost if and only if first deliveries ascend. */
  lemma FundingInAnyOrder(c: Config, events: seq<Event>, s: Symbol)
    requires Good(c)
    ensures var booked, settled := BoundariesIn(RunFrom(c, events).log, s), Settled(c, events, s);
      && G.Ascending(booked)
      && (forall b :: b in booked <==> b > c.genesisTs && G.InTime(settled, b))
      && ((forall b :: b in settled && b > c.genesisTs ==> b in booked) <==> G.FirstsAscend(c.genesisTs, settled))
  {
    hide RunFrom, Settled;
    RunDelivers(c, events, s);
    G.BookedIffInTime(c.genesisTs, Settled(c, events, s));
    G.NothingLostIff(c.genesisTs, Settled(c, events, s));
  }

  /** No settled boundary is lost either: one past genesis and past the symbol's watermark is booked, at
      its amount, once its write lands, and its redelivery changes nothing. */
  lemma FundingLands(c: Config, events: seq<Event>, s: Symbol, boundary: int, amount: real)
    requires Good(c) && RunFrom(c, events).memory.Some? && RunFrom(c, events).memory.value.pending.None?
    requires boundary > c.genesisTs && forall b :: b in BoundariesIn(RunFrom(c, events).log, s) ==> b < boundary
    ensures var e := RunFrom(c, events);
      var fold := FundingFolded(s, boundary, amount);
      var after := Next(c, Next(c, e, fold), Written);
      && BoundariesIn(after.log, s) == BoundariesIn(e.log, s) + [boundary]
      && AmountsIn(after.log, s) == AmountsIn(e.log, s) + [amount]
      && Next(c, after, fold) == after
  {
    hide RunFrom, BookFunding, WriteRows, ExposedKeys, BoundariesIn, AmountsIn, Sound, MarkIn;
    var e := RunFrom(c, events);
    EveryRunSound(c, events);
    GateOfLog(c, e, s);
    MarkBooked(e.log, s);
    BookedLast(e.log, FundingBooked(s, boundary, amount), s);
  }

  lemma {:induction false} MarkBooked(log: seq<Booking>, s: Symbol)
    ensures MarkIn(log, s).Some? ==> MarkIn(log, s).value in BoundariesIn(log, s)
  {
    if log != [] {
      MarkBooked(log[..|log| - 1], s);
    }
  }

  lemma BookedLast(log: seq<Booking>, b: Booking, s: Symbol)
    requires b.FundingBooked? && b.symbol == s
    ensures BoundariesIn(log + [b], s) == BoundariesIn(log, s) + [b.boundary]
    ensures AmountsIn(log + [b], s) == AmountsIn(log, s) + [b.amount]
  {
    assert (log + [b])[..|log|] == log;
  }

  // ----- The cash -----

  // What everything but the symbol's funding moved net cash by.
  ghost function CashElse(c: Config, log: seq<Booking>, s: Symbol): real
    requires c.step > 0.0 && Sequenced(c, log)
  {
    if log == [] then 0.0 else
      var init, b := log[..|log| - 1], log[|log| - 1];
      CashElse(c, init, s) + if b.FundingBooked? && b.symbol == s then 0.0 else CashBy(c, init, b)
  }

  lemma {:induction false} FundingMoves(c: Config, log: seq<Booking>, s: Symbol)
    requires c.step > 0.0 && Sequenced(c, log)
    ensures CashMoved(c, log) == CashElse(c, log, s) + SumR(AmountsIn(log, s))
  {
    hide SumR, Recovery.Bookable, Replay;
    NoSum();
    if log != [] {
      var init, b := log[..|log| - 1], log[|log| - 1];
      FundingMoves(c, init, s);
      if b.FundingBooked? && b.symbol == s {
        SumRAppend(AmountsIn(init, s), [b.amount]);
        OneSum(b.amount);
      }
    }
  }

  lemma NoSum()
    ensures SumR([]) == 0.0
  {}

  lemma OneSum(x: real)
    ensures SumR([x]) == x
  {
    assert [x][1..] == [];
  }

  /** In every reachable state the durable net cash is what everything else moved, and one amount for
      each boundary booked. */
  lemma FundingWorth(c: Config, events: seq<Event>, s: Symbol)
    requires Good(c)
    ensures var e := RunFrom(c, events);
      && Sequenced(c, e.log)
      && NetCash(e.durable.ledger) == NetCash(c.genesis) + CashElse(c, e.log, s) + SumR(AmountsIn(e.log, s))
      && |AmountsIn(e.log, s)| == |BoundariesIn(e.log, s)|
  {
    hide RunFrom, NetCash, CashMoved, CashElse, SumR;
    EveryRunSound(c, events);
    var e := RunFrom(c, events);
    ReplayWorth(c, e.log);
    FundingMoves(c, e.log, s);
  }
}
