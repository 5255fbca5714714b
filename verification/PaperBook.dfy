// The paper venue's resting book and the fills its store has not applied yet. Sizes are whole lots.

module PaperBook {
  import opened Domain

  // `working` is below `asked` where a reduce-only order was cut to the position it may close.
  datatype Resting = Resting(asked: nat, working: nat, filled: nat)

  predicate Fits(r: Resting) {
    r.filled <= r.working <= r.asked
  }

  function Rested(asked: nat, working: Option<nat>): Resting {
    Resting(asked, MinNat(working.GetOr(asked), asked), 0)
  }

  // Lower what is still working; never raise it.
  function Shrunk(r: Resting, remaining: nat): Resting
    requires Fits(r)
  {
    r.(working := r.filled + MinNat(r.working - r.filled, remaining))
  }

  // A fill is capped to what is still working.
  function Taken(r: Resting, quantity: nat): nat
    requires Fits(r)
  {
    MinNat(quantity, r.working - r.filled)
  }

  datatype BookFill = BookFill(filled: nat, complete: bool, shrunk: bool)

  function FillOf(r: Resting, quantity: nat): BookFill
    requires Fits(r)
  {
    var filled := r.filled + Taken(r, quantity);
    BookFill(Taken(r, quantity), filled == r.working, filled == r.working && r.working < r.asked)
  }

  class RestingBook {
    var orders: map<string, Resting>

    ghost predicate Valid()
      reads this
    {
      forall cloid :: cloid in orders ==> Fits(orders[cloid])
    }

    constructor ()
      ensures Valid() && orders == map[]
    {
      orders := map[];
    }

    method Rest(cloid: string, asked: nat, working: Option<nat>) returns (size: nat)
      requires Valid()
      modifies this
      ensures Valid() && orders == old(orders)[cloid := Rested(asked, working)]
      ensures orders[cloid] == Resting(asked, size, 0)
      ensures size == if working.Some? && working.value < asked then working.value else asked
    {
      var work := if working.Some? then working.value else asked;
      var resting := Resting(asked, if work < asked then work else asked, 0);
      orders := orders[cloid := resting];
      return resting.working;
    }

    method Shrink(cloid: string, remaining: nat)
      requires Valid() && cloid in orders
      modifies this
      ensures Valid() && orders == old(orders)[cloid := Shrunk(old(orders)[cloid], remaining)]
      ensures var before, after := old(orders)[cloid], orders[cloid];
        && after.asked == before.asked && after.filled == before.filled
        && after.working - after.filled ==
             if remaining < before.working - before.filled then remaining else before.working - before.filled
    {
      var resting := orders[cloid];
      var left := resting.working - resting.filled;
      orders := orders[cloid := resting.(working := resting.filled + if left < remaining then left else remaining)];
    }

    // `None` is a fill for an order that does not rest, which faults the run.
    method ApplyFill(cloid: string, quantity: nat) returns (r: Option<BookFill>)
      requires Valid()
      modifies this
      ensures Valid()
      ensures cloid !in old(orders) ==> r.None? && orders == old(orders)
      ensures cloid in old(orders) ==>
        var before := old(orders)[cloid];
        && r == Some(FillOf(before, quantity))
        && r.value.filled ==
             (if quantity < before.working - before.filled then quantity else before.working - before.filled)
        && (r.value.complete <==> before.filled + r.value.filled == before.working)
        && (r.value.shrunk <==> r.value.complete && before.working < before.asked)
        && orders == if r.value.complete then old(orders) - {cloid}
                     else old(orders)[cloid := before.(filled := before.filled + r.value.filled)]
    {
      if cloid !in orders {
        return None;
      }
      var resting := orders[cloid];
      var left := resting.working - resting.filled;
      var filled := if quantity < left then quantity else left;
      resting := resting.(filled := resting.filled + filled);
      if resting.working - resting.filled <= 0 {
        orders := orders - {cloid};
        return Some(BookFill(filled, true, resting.working < resting.asked));
      }
      orders := orders[cloid := resting];
      return Some(BookFill(filled, false, false));
    }

    method Remove(cloid: string) returns (r: Option<Resting>)
      requires Valid()
      modifies this
      ensures Valid() && orders == old(orders) - {cloid}
      ensures r == if cloid in old(orders) then Some(old(orders)[cloid]) else None
    {
      r := if cloid in orders then Some(orders[cloid]) else None;
      orders := orders - {cloid};
    }
  }

  // ----- Fills not applied yet -----

  datatype Report = Report(id: nat, cloid: string, symbol: Symbol, side: Side, quantity: nat)

  function Signed(r: Report): int {
    if r.side.Buy? then r.quantity else 0 - r.quantity
  }

  function Net(reports: seq<Report>, s: Symbol): int {
    if reports == [] then 0 else
      var last := reports[|reports| - 1];
      Net(reports[..|reports| - 1], s) + if last.symbol == s then Signed(last) else 0
  }

  // What the store has not applied, in the order it was recorded.
  function Pending(reports: seq<Report>, applied: set<nat>): seq<Report> {
    if reports == [] then [] else
      var rest, last := Pending(reports[..|reports| - 1], applied), reports[|reports| - 1];
      if last.id in applied then rest else rest + [last]
  }

  class UnappliedFills {
    var fills: seq<Report>

    constructor ()
      ensures fills == []
    {
      fills := [];
    }

    method Record(fill: Report)
      modifies this
      ensures fills == old(fills) + [fill]
    {
      fills := fills + [fill];
    }

    method Drain(applied: set<nat>)
      modifies this
      ensures fills == Pending(old(fills), applied)
    {
      var kept: seq<Report> := [];
      for i := 0 to |fills|
        invariant fills == old(fills)
        invariant kept == Pending(fills[..i], applied)
      {
        assert fills[..i + 1][..i] == fills[..i];
        if fills[i].id !in applied {
          kept := kept + [fills[i]];
        }
      }
      assert fills[..|fills|] == fills;
      fills := kept;
    }

    method SignedSize(s: Symbol, applied: set<nat>) returns (size: int)
      modifies this
      ensures fills == Pending(old(fills), applied) && size == Net(Pending(old(fills), applied), s)
    {
      Drain(applied);
      size := 0;
      for i := 0 to |fills|
        invariant fills == Pending(old(fills), applied)
        invariant size == Net(fills[..i], s)
      {
        assert fills[..i + 1][..i] == fills[..i];
        if fills[i].symbol == s {
          size := size + if fills[i].side.Buy? then fills[i].quantity else 0 - fills[i].quantity;
        }
      }
      assert fills[..|fills|] == fills;
    }
  }

  // ----- Runs -----

  datatype Order = Order(symbol: Symbol, side: Side, asked: nat)

  // `placed` is every order that ever rested, `reports` every fill reported, `done` every completing
  // fill with what it said of shrinking. `nets` is the store's, and `applied` the fills in it.
  datatype Venue = Venue(orders: map<string, Resting>, placed: map<string, Order>, reports: seq<Report>,
                         done: map<string, bool>, fills: seq<Report>, applied: set<nat>, nets: map<Symbol, int>)

  datatype Event =
    | Rest(cloid: string, order: Order, working: Option<nat>)
    | Shrink(cloid: string, remaining: nat)
    | Fill(cloid: string, quantity: nat)
    | Remove(cloid: string)
    | StoreApplies(id: nat)
    | Drain

  function NetIn(nets: map<Symbol, int>, s: Symbol): int {
    if s in nets then nets[s] else 0
  }

  // An order rests once. A fill that is not in the store yet can reach it at any later time.
  function Next(v: Venue, ev: Event): Venue {
    match ev
    case Rest(cloid, order, working) =>
      if cloid in v.placed then v else
      v.(orders := v.orders[cloid := Rested(order.asked, working)], placed := v.placed[cloid := order])
    case Shrink(cloid, remaining) =>
      if cloid !in v.orders || !Fits(v.orders[cloid]) then v else
      v.(orders := v.orders[cloid := Shrunk(v.orders[cloid], remaining)])
    case Fill(cloid, quantity) =>
      if cloid !in v.orders || cloid !in v.placed || !Fits(v.orders[cloid]) then v else
      var r := v.orders[cloid];
      var fill := FillOf(r, quantity);
      var report := Report(|v.reports|, cloid, v.placed[cloid].symbol, v.placed[cloid].side, fill.filled);
      v.(orders := if fill.complete then v.orders - {cloid}
        else v.orders[cloid := r.(filled := r.filled + fill.filled)],
         reports := v.reports + [report],
         done := if fill.complete then v.done[cloid := fill.shrunk] else v.done,
         fills := v.fills + [report])
    case Remove(cloid) => v.(orders := v.orders - {cloid})
    case StoreApplies(id) =>
      if id >= |v.reports| || id in v.applied then v else
      var report := v.reports[id];
      v.(applied := v.applied + {id}, nets := v.nets[report.symbol := NetIn(v.nets, report.symbol) + Signed(report)])
    case Drain => v.(fills := Pending(v.fills, v.applied))
  }

  function Run(nets: map<Symbol, int>, events: seq<Event>): Venue {
    if events == [] then Venue(map[], map[], [], map[], [], {}, nets)
    else Next(Run(nets, events[..|events| - 1]), events[|events| - 1])
  }

  lemma RunSteps(nets: map<Symbol, int>, events: seq<Event>, ev: Event)
    ensures Run(nets, events + [ev]) == Next(Run(nets, events), ev)
    ensures Run(nets, []) == Venue(map[], map[], [], map[], [], {}, nets)
  {
    assert (events + [ev])[..|events|] == events;
  }

  function Reported(reports: seq<Report>, cloid: string): nat {
    if reports == [] then 0 else
      var last := reports[|reports| - 1];
      Reported(reports[..|reports| - 1], cloid) + if last.cloid == cloid then last.quantity else 0
  }

  ghost predicate BookSound(v: Venue) {
    && (forall cloid :: cloid in v.orders ==>
          && cloid in v.placed && cloid !in v.done && Fits(v.orders[cloid])
          && v.orders[cloid].asked == v.placed[cloid].asked
          && v.orders[cloid].filled == Reported(v.reports, cloid))
    && (forall cloid :: cloid !in v.placed ==> Reported(v.reports, cloid) == 0)
    && (forall cloid :: cloid in v.placed ==> Reported(v.reports, cloid) <= v.placed[cloid].asked)
    && (forall cloid :: cloid in v.done ==>
          cloid in v.placed && (v.done[cloid] <==> Reported(v.reports, cloid) < v.placed[cloid].asked))
  }

  ghost predicate NetSound(v: Venue, nets: map<Symbol, int>) {
    && (forall i :: 0 <= i < |v.reports| ==> v.reports[i].id == i)
    && (forall id :: id in v.applied ==> id < |v.reports|)
    && Pending(v.fills, v.applied) == Pending(v.reports, v.applied)
    && forall s :: NetIn(v.nets, s) + Net(Pending(v.reports, v.applied), s) == NetIn(nets, s) + Net(v.reports, s)
  }

  lemma ReportedAppends(reports: seq<Report>, r: Report)
    ensures forall cloid ::
      Reported(reports + [r], cloid) == Reported(reports, cloid) + if r.cloid == cloid then r.quantity else 0
  {
    assert (reports + [r])[..|reports|] == reports;
  }

  lemma BookStep(v: Venue, ev: Event)
    requires BookSound(v)
    ensures BookSound(Next(v, ev))
  {
    hide Reported, FillOf, Shrunk, Pending;
    match ev
    case Fill(cloid, quantity) =>
      if cloid in v.orders {
        FillBooks(v, cloid, quantity);
      }
    case Shrink(cloid, remaining) =>
      if cloid in v.orders {
        ShrinkFits(v.orders[cloid], remaining);
      }
    case _ =>
  }

  lemma ShrinkFits(r: Resting, remaining: nat)
    requires Fits(r)
    ensures var q := Shrunk(r, remaining);
      Fits(q) && q.asked == r.asked && q.filled == r.filled && q.working <= r.working
  {}

  lemma FillBooks(v: Venue, cloid: string, quantity: nat)
    requires BookSound(v) && cloid in v.orders
    ensures BookSound(Next(v, Fill(cloid, quantity)))
  {
    hide Reported;
    var o := v.placed[cloid];
    ReportedAppends(v.reports, Report(|v.reports|, cloid, o.symbol, o.side, FillOf(v.orders[cloid], quantity).filled));
  }

  lemma PendingAppends(reports: seq<Report>, r: Report, applied: set<nat>)
    ensures Pending(reports + [r], applied)
      == if r.id in applied then Pending(reports, applied) else Pending(reports, applied) + [r]
    ensures forall s ::
      Net(reports + [r], s)
        == Net(reports, s) + if r.symbol != s then 0 else if r.side == Buy then r.quantity else 0 - r.quantity
    ensures Pending([], applied) == [] && forall s :: Net([], s) == 0
  {
    assert (reports + [r])[..|reports|] == reports;
  }

  // Draining first changes nothing that is read later.
  lemma {:induction false} PendingTwice(reports: seq<Report>, applied: set<nat>, more: set<nat>)
    requires applied <= more
    ensures Pending(Pending(reports, applied), more) == Pending(reports, more)
  {
    if reports != [] {
      var rest, last := Pending(reports[..|reports| - 1], applied), reports[|reports| - 1];
      PendingTwice(reports[..|reports| - 1], applied, more);
      if last.id !in applied {
        assert (rest + [last])[..|rest|] == rest;
      }
    }
  }

  // Applying one fill takes exactly its size out of what is pending.
  lemma {:induction false} PendingLoses(reports: seq<Report>, applied: set<nat>, i: nat, s: Symbol)
    requires i < |reports| && i !in applied && forall j :: 0 <= j < |reports| ==> reports[j].id == j
    ensures Net(Pending(reports, applied + {i}), s)
         == Net(Pending(reports, applied), s) - if reports[i].symbol == s then Signed(reports[i]) else 0
  {
    var init, last := reports[..|reports| - 1], reports[|reports| - 1];
    if i < |reports| - 1 {
      PendingLoses(init, applied, i, s);
      if last.id !in applied {
        assert (Pending(init, applied) + [last])[..|Pending(init, applied)|] == Pending(init, applied);
        assert (Pending(init, applied + {i}) + [last])[..|Pending(init, applied + {i})|]
          == Pending(init, applied + {i});
      }
    } else {
      SamePending(init, applied, i);
      assert (Pending(init, applied) + [last])[..|Pending(init, applied)|] == Pending(init, applied);
    }
  }

  lemma {:induction false} SamePending(reports: seq<Report>, applied: set<nat>, i: nat)
    requires forall j :: 0 <= j < |reports| ==> reports[j].id != i
    ensures Pending(reports, applied + {i}) == Pending(reports, applied)
  {
    if reports != [] {
      SamePending(reports[..|reports| - 1], applied, i);
    }
  }

  lemma FillNet(v: Venue, cloid: string, quantity: nat, nets: map<Symbol, int>)
    requires NetSound(v, nets) && cloid in v.orders && cloid in v.placed && Fits(v.orders[cloid])
    ensures NetSound(Next(v, Fill(cloid, quantity)), nets)
  {
    hide Net, Pending, FillOf, Taken;
    var o := v.placed[cloid];
    var report := Report(|v.reports|, cloid, o.symbol, o.side, FillOf(v.orders[cloid], quantity).filled);
    PendingAppends(v.reports, report, v.applied);
    PendingAppends(v.fills, report, v.applied);
    PendingAppends(Pending(v.reports, v.applied), report, v.applied);
  }

  lemma ApplyNet(v: Venue, id: nat, nets: map<Symbol, int>)
    requires NetSound(v, nets) && id < |v.reports| && id !in v.applied
    ensures NetSound(Next(v, StoreApplies(id)), nets)
  {
    hide Net, Pending;
    var more := v.applied + {id};
    PendingTwice(v.fills, v.applied, more);
    PendingTwice(v.reports, v.applied, more);
    forall s
      ensures NetIn(Next(v, StoreApplies(id)).nets, s) + Net(Pending(v.reports, more), s)
        == NetIn(nets, s) + Net(v.reports, s)
    {
      PendingLoses(v.reports, v.applied, id, s);
    }
  }

  lemma NetStep(v: Venue, ev: Event, nets: map<Symbol, int>)
    requires NetSound(v, nets)
    ensures NetSound(Next(v, ev), nets)
  {
    hide Net, Pending, Signed, FillOf;
    match ev
    case Fill(cloid, quantity) =>
      if cloid in v.orders && cloid in v.placed && Fits(v.orders[cloid]) {
        FillNet(v, cloid, quantity, nets);
      }
    case StoreApplies(id) =>
      if id < |v.reports| && id !in v.applied {
        ApplyNet(v, id, nets);
      }
    case Drain => PendingTwice(v.fills, v.applied, v.applied);
    case _ =>
  }

  lemma {:induction false} RunSound(nets: map<Symbol, int>, events: seq<Event>)
    ensures BookSound(Run(nets, events)) && NetSound(Run(nets, events), nets)
  {
    hide Next;
    if events != [] {
      RunSound(nets, events[..|events| - 1]);
      BookStep(Run(nets, events[..|events| - 1]), events[|events| - 1]);
      NetStep(Run(nets, events[..|events| - 1]), events[|events| - 1], nets);
    }
  }

  /** No order over-fills: its reported fills never pass the size it is worked at, nor that the size it
      asked; and a completing fill says the order was shrunk exactly where its reports end short of
      what it asked. */
  lemma NeverOverfills(nets: map<Symbol, int>, events: seq<Event>)
    ensures var v := Run(nets, events);
      && (forall cloid :: cloid in v.orders ==>
            cloid in v.placed && Reported(v.reports, cloid) <= v.orders[cloid].working <= v.placed[cloid].asked)
      && (forall cloid :: cloid in v.placed ==> Reported(v.reports, cloid) <= v.placed[cloid].asked)
      && (forall cloid :: cloid in v.done ==>
            cloid in v.placed && (v.done[cloid] <==> Reported(v.reports, cloid) < v.placed[cloid].asked))
  {
    RunSound(nets, events);
  }

  // An order rests once, at the lesser of its working and its asked size, and shrinks or leaves as told.
  lemma BookMoves(v: Venue, cloid: string, order: Order, working: Option<nat>, remaining: nat)
    ensures cloid !in v.placed ==>
      var size := if working.Some? && working.value < order.asked then working.value else order.asked;
      Next(v, Rest(cloid, order, working))
        == v.(orders := v.orders[cloid := Resting(order.asked, size, 0)], placed := v.placed[cloid := order])
    ensures cloid in v.placed ==> Next(v, Rest(cloid, order, working)) == v
    ensures cloid in v.orders && Fits(v.orders[cloid]) ==>
      var r := v.orders[cloid]; var left := r.working - r.filled;
      Next(v, Shrink(cloid, remaining))
        == v.(orders := v.orders[cloid := r.(working := r.filled + if remaining < left then remaining else left)])
    ensures Next(v, Remove(cloid)) == v.(orders := v.orders - {cloid})
  {}

  lemma FillReports(v: Venue, cloid: string, quantity: nat)
    requires BookSound(v) && cloid in v.orders
    ensures var o, r, after := v.placed[cloid], v.orders[cloid], Next(v, Fill(cloid, quantity));
      var filled := if quantity < r.working - r.filled then quantity else r.working - r.filled;
      var report := Report(|v.reports|, cloid, o.symbol, o.side, filled);
      && after.reports == v.reports + [report] && after.fills == v.fills + [report]
      && after.applied == v.applied
      && (cloid in after.orders <==> r.filled + filled < r.working)
  {
    hide Reported;
  }

  /** A fill of a resting order is reported at what was still working of the offer, on the order's own
      symbol and side, and is pending until the store applies it; then the store's net holds it. */
  lemma FillIsReported(nets: map<Symbol, int>, events: seq<Event>, cloid: string, quantity: nat)
    requires cloid in Run(nets, events).orders
    ensures var v, after := Run(nets, events), Run(nets, events + [Fill(cloid, quantity)]);
      && cloid in v.placed && Fits(v.orders[cloid])
      && var o, r := v.placed[cloid], v.orders[cloid];
         var filled := if quantity < r.working - r.filled then quantity else r.working - r.filled;
         var report := Report(|v.reports|, cloid, o.symbol, o.side, filled);
      && after.reports == v.reports + [report] && after.fills == v.fills + [report]
      && (cloid in after.orders <==> r.filled + filled < r.working)
      && |v.reports| !in after.applied && |v.reports| in Next(after, StoreApplies(|v.reports|)).applied
  {
    hide Run, Pending, Net, Reported;
    RunSound(nets, events);
    RunSteps(nets, events, Fill(cloid, quantity));
    FillReports(Run(nets, events), cloid, quantity);
    StoreTakes(Run(nets, events + [Fill(cloid, quantity)]), |Run(nets, events).reports|);
  }

  lemma StoreTakes(v: Venue, id: nat)
    ensures id < |v.reports| ==> id in Next(v, StoreApplies(id)).applied
  {}

  /** The net paper trades on: whenever the store applies each fill and whenever the list is drained,
      the store's net plus what is unapplied is the starting net plus every fill reported. */
  lemma NetIsComplete(nets: map<Symbol, int>, events: seq<Event>, s: Symbol)
    ensures var v := Run(nets, events);
      NetIn(v.nets, s) + Net(Pending(v.fills, v.applied), s) == NetIn(nets, s) + Net(v.reports, s)
  {
    RunSound(nets, events);
  }
}
