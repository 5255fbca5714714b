// Reconciling one saga with a venue read of its order.
//
// Each fact published below is handled before the next is read off the saga, as on the in-memory
// bus. `Sound` is what every run of facts keeps, so it stands for "reachable".

module Adoption {
  import opened Domain
  import opened Sagas

  // One successful venue read: the order record, if the venue has one, and its fill history.
  datatype VenueView = VenueView(status: Option<State>, fills: seq<Fact>)

  function GhostVerdict(state: State, cancelRequested: bool): State {
    if cancelRequested || state.PartiallyFilled? then Cancelled else Rejected
  }

  function Bridged(s: Saga): Option<Saga> {
    if s.state.Pending? then Handle(s, Status(Submitted)) else Some(s)
  }

  // What is left to publish once the fills are healed. `ghosted` is the ghost gate's verdict.
  function Settled(h: Saga, view: VenueView, cancelRequested: bool, ghosted: bool): Option<Saga> {
    match view.status
    case None =>
      if Working(h.state) && ghosted then Handle(h, Status(GhostVerdict(h.state, cancelRequested))) else Some(h)
    case Some(status) =>
      if status.Live? && view.fills != [] then Some(h) else Handle(h, Status(status))
  }

  // The saga after one adoption; `None` where a published fact faults the run.
  function Adopt(s: Saga, view: VenueView, cancelRequested: bool, ghosted: bool): Option<Saga> {
    if view.status.None? && view.fills == [] && !Working(s.state) then Handle(s, Status(Failed)) else
      match Bridged(s)
      case None => None
      case Some(b) =>
        match Run(b, view.fills)
        case None => None
        case Some(h) => Settled(h, view, cancelRequested, ghosted)
  }

  // What a report carries beside its fact.
  datatype Note = Note(venueOid: Option<string>, ts: int, reason: Option<string>)

  // Only a rejection and a failure take a reason, and they never go without one.
  function ReasonOf(status: State, note: Note): Option<string> {
    if status.Rejected? then Some(note.reason.GetOr("venue rejected"))
    else if status.Failed? then Some(note.reason.GetOr("proven never landed"))
    else None
  }

  method Deliver(order: Order, fact: Fact, note: Note) returns (ok: bool)
    modifies order`state, order`cum, order`applied, order`venue
    ensures ok <==> Handle(old(order.View()), fact).Some?
    ensures order.View() == Handle(old(order.View()), fact).GetOr(old(order.View()))
    ensures order.View() == old(order.View()) || fact.Fill? ==> order.venue == old(order.venue)
    ensures order.View() != old(order.View()) && fact.Status? ==>
      && order.venue.oid == (if note.venueOid.Some? then note.venueOid else old(order.venue.oid))
      && order.venue.ackedTs == (if fact.state == Live then Some(note.ts) else old(order.venue.ackedTs))
      && order.venue.reason ==
           (if fact.state == Rejected then Some(if note.reason.Some? then note.reason.value else "venue rejected")
            else if fact.state == Failed
            then Some(if note.reason.Some? then note.reason.value else "proven never landed")
            else old(order.venue.reason))
  {
    match fact
    case Status(status) =>
      if Terminal(order.state) || !Mapped(status) {
        return true;
      }
      var r := order.Apply(OrderEvent(StatusKey(status), status, None, note.venueOid, note.ts, ReasonOf(status, note)));
      return !r.Illegal?;
    case Fill(trade, quantity) =>
      var r := order.RecordFill(trade, quantity, note.ts);
      return !r.Illegal?;
  }

  method HealFills(order: Order, fills: seq<Fact>, ts: int) returns (ok: bool)
    modifies order`state, order`cum, order`applied, order`venue
    ensures ok <==> Run(old(order.View()), fills).Some?
    ensures ok ==> order.View() == Run(old(order.View()), fills).value
  {
    ghost var s := order.View();
    var i := 0;
    while i < |fills|
      invariant 0 <= i <= |fills|
      invariant Run(s, fills[..i]) == Some(order.View())
    {
      assert fills[..i + 1][..i] == fills[..i];
      ok := Deliver(order, fills[i], Note(None, ts, None));
      if !ok {
        RunStops(s, fills, i + 1);
        return false;
      }
      i := i + 1;
    }
    assert fills[..i] == fills;
    return true;
  }

  // A run that faulted on a prefix faulted.
  lemma {:induction false} RunStops(s: Saga, facts: seq<Fact>, k: nat)
    requires k <= |facts| && Run(s, facts[..k]).None?
    ensures Run(s, facts).None?
  {
    if k == |facts| {
      assert facts[..k] == facts;
    } else {
      assert facts[..|facts| - 1][..k] == facts[..k];
      RunStops(s, facts[..|facts| - 1], k);
    }
  }

  method AdoptOrder(order: Order, view: VenueView, note: Note, ghosted: bool) returns (ok: bool)
    modifies order`state, order`cum, order`applied, order`venue
    ensures ok <==> Adopt(old(order.View()), view, order.cancelRequested, ghosted).Some?
    ensures ok ==> order.View() == Adopt(old(order.View()), view, order.cancelRequested, ghosted).value
  {
    hide Run, Handle;
    if view.status.None? && view.fills == [] && !Working(order.state) {
      ok := Deliver(order, Status(Failed), Note(None, note.ts, Some("venue has no record of this cloid")));
      return;
    }
    if order.state.Pending? {
      ok := Deliver(order, Status(Submitted), Note(None, note.ts, None));
      if !ok {
        return;
      }
    }
    ok := HealFills(order, view.fills, note.ts);
    if !ok {
      return;
    }
    if view.status.None? {
      if Working(order.state) && ghosted {
        ok := Deliver(order, Status(GhostVerdict(order.state, order.cancelRequested)),
          Note(None, note.ts, Some("ghost")));
      }
      return;
    }
    if !(view.status.value.Live? && view.fills != []) {
      ok := Deliver(order, Status(view.status.value), note);
    }
  }

  // ----- Coherent views -----

  function BookedBy(applied: set<EventKey>, facts: seq<Fact>): int {
    if facts == [] then 0 else
      var last := facts[|facts| - 1];
      BookedBy(applied, facts[..|facts| - 1])
        + if last.Fill? && KeyOf(last) in applied then last.quantity else 0
  }

  predicate Trades(fills: seq<Fact>) {
    && (forall i :: 0 <= i < |fills| ==> fills[i].Fill? && fills[i].quantity > 0)
    && (forall i, j :: 0 <= i < j < |fills| ==> KeyOf(fills[i]) != KeyOf(fills[j]))
  }

  // The history holds every fill the saga booked, at the quantity it booked, and no more than the
  // order asked for.
  ghost predicate Holds(s: Saga, fills: seq<Fact>) {
    && Trades(fills)
    && s.cum == BookedBy(s.applied, fills)
    && (forall t :: TradeKey(t) in s.applied ==> Seen(fills, TradeKey(t)))
    && FilledBy(fills) <= s.quantity
  }

  // A rejected or never-sent order has no fills, and the venue never says "never sent" of an order
  // it acked.
  ghost predicate Coherent(s: Saga, view: VenueView) {
    && Holds(s, view.fills)
    && (view.status == Some(Rejected) || view.status == Some(Failed) ==> view.fills == [])
    && (view.status == Some(Failed) ==> !s.state.Live?)
  }

  function Keys(fills: seq<Fact>): set<EventKey> {
    if fills == [] then {} else Keys(fills[..|fills| - 1]) + {KeyOf(fills[|fills| - 1])}
  }

  lemma {:induction false} NewGrows(applied: set<EventKey>, fills: seq<Fact>, k: nat)
    requires k <= |fills| && Trades(fills)
    ensures FilledBy(fills[..k]) - BookedBy(applied, fills[..k]) <= FilledBy(fills) - BookedBy(applied, fills)
    ensures 0 <= BookedBy(applied, fills[..k]) <= FilledBy(fills[..k])
    decreases |fills|
  {
    if fills == [] {
    } else if k == |fills| {
      assert fills[..k] == fills;
      NewGrows(applied, fills[..k - 1], k - 1);
      assert fills[..k - 1][..k - 1] == fills[..k - 1];
    } else {
      assert fills[..|fills| - 1][..k] == fills[..k];
      NewGrows(applied, fills[..|fills| - 1], k);
    }
  }

  ghost predicate CanHeal(s: Saga, fills: seq<Fact>) {
    && Sound(s) && Holds(s, fills)
    && !s.state.Pending? && (Terminal(s.state) ==> s.state.Filled?)
  }

  function HealedState(s: Saga, cum: int): State {
    if cum == 0 then s.state else if cum >= s.quantity then Filled else PartiallyFilled
  }

  lemma {:induction false} HealPrefix(s: Saga, fills: seq<Fact>, k: nat)
    requires k <= |fills| && CanHeal(s, fills)
    ensures var cum := s.cum + FilledBy(fills[..k]) - BookedBy(s.applied, fills[..k]);
      cum >= 0 && Run(s, fills[..k]) == Some(Saga(s.quantity, HealedState(s, cum), cum, s.applied + Keys(fills[..k])))
  {
    hide Sound, Holds, BookedBy, FilledBy, Keys;
    HealBounds(s, fills, k);
    if k > 0 {
      HealPrefix(s, fills, k - 1);
      HealBounds(s, fills, k - 1);
      assert fills[..k][..k - 1] == fills[..k - 1];
      HistoryReads(s, fills, k - 1);
      PrefixReads(s.applied, fills, k);
      HealOne(s, fills, k, s.cum + FilledBy(fills[..k - 1]) - BookedBy(s.applied, fills[..k - 1]));
    } else {
      assert fills[..0] == [];
      NothingRead(s.applied);
      HealedAtRest(s);
      assert s.applied + {} == s.applied;
    }
  }

  // What a prefix of the history reaches stays within the order.
  lemma HealBounds(s: Saga, fills: seq<Fact>, k: nat)
    requires k <= |fills| && CanHeal(s, fills)
    ensures s.cum <= s.cum + FilledBy(fills[..k]) - BookedBy(s.applied, fills[..k]) <= s.quantity
  {
    NewGrows(s.applied, fills, k);
  }

  lemma PrefixReads(applied: set<EventKey>, fills: seq<Fact>, k: nat)
    requires 0 < k <= |fills| && fills[k - 1].Fill?
    ensures var f := fills[k - 1];
      && FilledBy(fills[..k]) == FilledBy(fills[..k - 1]) + f.quantity
      && BookedBy(applied, fills[..k])
        == BookedBy(applied, fills[..k - 1]) + (if KeyOf(f) in applied then f.quantity else 0)
      && Keys(fills[..k]) == Keys(fills[..k - 1]) + {KeyOf(f)}
  {
    assert fills[..k][..k - 1] == fills[..k - 1];
  }

  lemma HistoryReads(s: Saga, fills: seq<Fact>, i: nat)
    requires CanHeal(s, fills) && i < |fills|
    ensures fills[i].Fill? && fills[i].quantity > 0
  {}

  lemma NothingRead(applied: set<EventKey>)
    ensures FilledBy([]) == 0 && BookedBy(applied, []) == 0 && Keys([]) == {}
  {}

  lemma HealedAtRest(s: Saga)
    requires Sound(s) && !s.state.Pending? && (Terminal(s.state) ==> s.state.Filled?)
    ensures HealedState(s, s.cum) == s.state
  {}

  // One fact of the history: absorbed where it is booked, and otherwise a legal fill.
  lemma HealOne(s: Saga, fills: seq<Fact>, k: nat, cum: nat)
    requires 0 < k <= |fills| && CanHeal(s, fills)
    requires s.cum <= cum && (KeyOf(fills[k - 1]) !in s.applied ==> cum + fills[k - 1].quantity <= s.quantity)
    ensures var f := fills[k - 1]; var seen := s.applied + Keys(fills[..k - 1]);
      Handle(Saga(s.quantity, HealedState(s, cum), cum, seen), f)
        == Some(if KeyOf(f) in s.applied then Saga(s.quantity, HealedState(s, cum), cum, seen)
                else Saga(s.quantity, HealedState(s, cum + f.quantity), cum + f.quantity, seen + {KeyOf(f)}))
    ensures var f, keys := fills[k - 1], Keys(fills[..k - 1]);
      && s.applied + (keys + {KeyOf(f)}) == s.applied + keys + {KeyOf(f)}
      && (KeyOf(f) in s.applied ==> s.applied + keys == s.applied + keys + {KeyOf(f)})
  {
    hide Keys, BookedBy, FilledBy;
    NotYet(fills, k - 1);
  }

  lemma NotYet(fills: seq<Fact>, k: nat)
    requires k < |fills| && Trades(fills)
    ensures KeyOf(fills[k]) !in Keys(fills[..k])
  {
    SeenInKeys(fills[..k]);
  }

  // Healing books exactly the missing fills.
  lemma HealLaw(s: Saga, fills: seq<Fact>)
    requires CanHeal(s, fills)
    ensures FilledBy(fills) >= 0 && Run(s, fills) ==
      Some(Saga(s.quantity, HealedState(s, FilledBy(fills)), FilledBy(fills), s.applied + Keys(fills)))
  {
    HealPrefix(s, fills, |fills|);
    assert fills[..|fills|] == fills;
  }

  lemma BridgeLaw(s: Saga, fills: seq<Fact>)
    requires Sound(s) && !Terminal(s.state) && Holds(s, fills)
    ensures Bridged(s).Some? && CanHeal(Bridged(s).value, fills)
    ensures var b := Bridged(s).value; b.cum == s.cum && b.state == if s.state.Pending? then Submitted else s.state
  {
    if s.state.Pending? {
      assert forall t :: TradeKey(t) in Bridged(s).value.applied <==> TradeKey(t) in s.applied;
      BookedCong(s.applied, Bridged(s).value.applied, fills);
    }
  }

  lemma {:induction false} BookedCong(a: set<EventKey>, b: set<EventKey>, fills: seq<Fact>)
    requires forall t :: TradeKey(t) in a <==> TradeKey(t) in b
    ensures BookedBy(a, fills) == BookedBy(b, fills)
  {
    if fills != [] {
      BookedCong(a, b, fills[..|fills| - 1]);
    }
  }

  /** Adoption is safe: for every reachable open saga and every coherent view no replayed fact is an
      illegal transition, the saga ends with exactly the view's fills booked, and its state is the
      one the view and the gate call for: filled at the quantity, otherwise what the venue's record says,
      and without one failed where it never landed, gone where the gate rules so (cancelled where a
      cancel was asked for or a fill is booked, rejected where neither), and otherwise as healed. */
  lemma AdoptionAligns(s: Saga, view: VenueView, cancelRequested: bool, ghosted: bool)
    requires Sound(s) && !Terminal(s.state) && Coherent(s, view)
    ensures Adopt(s, view, cancelRequested, ghosted).Some?
    ensures var r := Adopt(s, view, cancelRequested, ghosted).value;
      && Sound(r)
      && r.cum == FilledBy(view.fills)
      && r.state ==
           (if FilledBy(view.fills) == s.quantity then Filled
            else match view.status
              case Some(status) =>
                if status == Cancelled || status == Rejected || status == Failed then status
                else if view.fills != [] then PartiallyFilled
                else if status == Live then Live
                else if s.state == Pending then Submitted else s.state
              case None =>
                if view.fills == [] && s.state != Live && s.state != PartiallyFilled then Failed
                else if ghosted && (cancelRequested || view.fills != []) then Cancelled
                else if ghosted then Rejected
                else if view.fills != [] then PartiallyFilled else Live)
      && (forall t :: TradeKey(t) in r.applied <==> Seen(view.fills, TradeKey(t)))
  {
    hide Run, Keys, Trades, BookedBy, Sound;
    TotalPositive(view.fills);
    SeenInKeys(view.fills);
    if view.status.None? && view.fills == [] && !Working(s.state) {
      NeverLanded(s);
    } else {
      BridgeLaw(s, view.fills);
      var b := Bridged(s).value;
      HealLaw(b, view.fills);
      HealedSound(b, view.fills);
      SettledLaw(Run(b, view.fills).value, view, cancelRequested, ghosted);
      HealedReads(b, view.fills);
    }
  }

  lemma NeverLanded(s: Saga)
    requires Sound(s) && (s.state.Pending? || s.state.Submitted?)
    ensures var r := Handle(s, Status(Failed));
      r.Some? && Sound(r.value) && r.value.state == Failed && r.value.cum == s.cum == 0 && NoFills(r.value)
  {}

  // Publishing the view's status, or the gate's verdict, is legal behind the healed fills.
  lemma SettledLaw(h: Saga, view: VenueView, cancelRequested: bool, ghosted: bool)
    requires Sound(h) && !h.state.Pending? && (Terminal(h.state) ==> h.state.Filled?)
    requires h.cum == 0 <==> view.fills == []
    requires view.status == Some(Rejected) || view.status == Some(Failed) ==> h.cum == 0
    requires view.status == Some(Failed) ==> !h.state.Live?
    ensures var r := Settled(h, view, cancelRequested, ghosted);
      && r.Some? && Sound(r.value) && r.value.cum == h.cum
      && (forall t :: TradeKey(t) in r.value.applied <==> TradeKey(t) in h.applied)
      && r.value.state ==
         if h.state.Filled? then Filled
         else match view.status
           case Some(status) =>
             if status.Cancelled? || status.Rejected? || status.Failed? then status
             else if status.Live? && h.cum == 0 then Live
             else h.state
           case None =>
             if (h.state == Live || h.state == PartiallyFilled) && ghosted
             then if cancelRequested || h.cum > 0 then Cancelled else Rejected
             else h.state
  {}

  lemma HealedReads(b: Saga, fills: seq<Fact>)
    requires CanHeal(b, fills)
    ensures FilledBy(fills) >= b.cum
    ensures forall t :: TradeKey(t) in b.applied ==> TradeKey(t) in Keys(fills)
  {
    NewGrows(b.applied, fills, |fills|);
    assert fills[..|fills|] == fills;
    SeenInKeys(fills);
  }

  lemma {:induction false} SeenInKeys(fills: seq<Fact>)
    ensures forall key :: key in Keys(fills) <==> Seen(fills, key)
  {
    if fills != [] {
      SeenInKeys(fills[..|fills| - 1]);
      LastSeen(fills[..|fills| - 1], fills[|fills| - 1]);
      assert fills == fills[..|fills| - 1] + [fills[|fills| - 1]];
    }
  }

  lemma {:induction false} TotalPositive(fills: seq<Fact>)
    requires Trades(fills)
    ensures FilledBy(fills) >= 0 && (FilledBy(fills) == 0 <==> fills == [])
  {
    if fills != [] {
      TotalPositive(fills[..|fills| - 1]);
    }
  }

  lemma HealedSound(s: Saga, fills: seq<Fact>)
    requires CanHeal(s, fills)
    ensures Run(s, fills).Some? && Sound(Run(s, fills).value)
  {
    HealLaw(s, fills);
    RunSound(s, fills);
  }

  lemma {:induction false} RunSound(s: Saga, facts: seq<Fact>)
    requires Sound(s)
    ensures Run(s, facts).Some? ==> Sound(Run(s, facts).value)
  {
    if facts != [] {
      RunSound(s, facts[..|facts| - 1]);
      var before := Run(s, facts[..|facts| - 1]);
      if before.Some? {
        HandleKeepsSound(before.value, facts[|facts| - 1]);
      }
    }
  }

  /** A second adoption of the same view advances nothing, exactly unless the order is still open
      with no record at the venue and the ghost gate has meanwhile ruled it gone. */
  lemma AdoptionSettles(s: Saga, view: VenueView, cancelRequested: bool, ghosted: bool, again: bool)
    requires Sound(s) && !Terminal(s.state) && Coherent(s, view)
    ensures Adopt(s, view, cancelRequested, ghosted).Some?
    ensures var r := Adopt(s, view, cancelRequested, ghosted).value;
      Adopt(r, view, cancelRequested, again) == Some(r) <==>
        !(again && view.status.None? && Working(r.state))
  {
    hide Run;
    AdoptionAligns(s, view, cancelRequested, ghosted);
    var r := Adopt(s, view, cancelRequested, ghosted).value;
    TotalPositive(view.fills);
    AllBooked(r, view.fills);
  }

  // A history the saga already holds in full replays as nothing, whatever its state.
  lemma {:induction false} AllBooked(s: Saga, fills: seq<Fact>)
    requires forall i :: 0 <= i < |fills| ==> fills[i].Fill? && fills[i].quantity > 0 && KeyOf(fills[i]) in s.applied
    ensures Run(s, fills) == Some(s)
  {
    if fills != [] {
      AllBooked(s, fills[..|fills| - 1]);
    }
  }

  /** A crash between any two replayed facts costs nothing: adopting the same view from the saga as
      it stood after any prefix of the heal ends in the same saga. */
  lemma AdoptionResumes(s: Saga, view: VenueView, cancelRequested: bool, ghosted: bool, k: nat)
    requires Sound(s) && !Terminal(s.state) && Coherent(s, view) && k <= |view.fills|
    requires view.fills != [] || view.status.Some?
    ensures Bridged(s).Some? && Run(Bridged(s).value, view.fills[..k]).Some?
    ensures var mid := Run(Bridged(s).value, view.fills[..k]).value;
      Adopt(mid, view, cancelRequested, ghosted) == Adopt(s, view, cancelRequested, ghosted)
  {
    hide Run, Settled;
    BridgeLaw(s, view.fills);
    var b := Bridged(s).value;
    HealPrefix(b, view.fills, k);
    var mid := Run(b, view.fills[..k]).value;
    HealLaw(b, view.fills);
    MidHolds(b, view.fills, k);
    HealLaw(mid, view.fills);
    TotalPositive(view.fills);
    SeenInKeys(view.fills);
    SeenInKeys(view.fills[..k]);
    forall key | key in Keys(view.fills[..k]) ensures key in Keys(view.fills) {
      var i :| 0 <= i < k && KeyOf(view.fills[..k][i]) == key;
      assert KeyOf(view.fills[i]) == key;
    }
    assert mid.applied + Keys(view.fills) == b.applied + Keys(view.fills);
    assert Run(mid, view.fills) == Run(b, view.fills);
    assert Bridged(mid) == Some(mid);
  }

  lemma MidHolds(b: Saga, fills: seq<Fact>, k: nat)
    requires k <= |fills| && CanHeal(b, fills)
    ensures Run(b, fills[..k]).Some? && CanHeal(Run(b, fills[..k]).value, fills)
  {
    HealPrefix(b, fills, k);
    RunSound(b, fills[..k]);
    var mid := Run(b, fills[..k]).value;
    BookedSplit(b.applied, fills, k, |fills|);
    assert fills[..|fills|] == fills;
    SeenInKeys(fills[..k]);
  }

  lemma KeyWithin(fills: seq<Fact>, k: nat, i: nat)
    requires k <= |fills| && i < |fills| && Trades(fills)
    ensures KeyOf(fills[i]) in Keys(fills[..k]) <==> i < k
  {
    SeenInKeys(fills[..k]);
    if i < k {
      assert fills[..k][i] == fills[i];
    }
  }

  // What a saga that also booked the first `k` trades has booked.
  lemma {:induction false} BookedSplit(applied: set<EventKey>, fills: seq<Fact>, k: nat, n: nat)
    requires k <= |fills| && n <= |fills| && Trades(fills)
    ensures var m := if n <= k then n else k;
      BookedBy(applied + Keys(fills[..k]), fills[..n])
        == BookedBy(applied, fills[..n]) + FilledBy(fills[..m]) - BookedBy(applied, fills[..m])
  {
    hide Keys, BookedBy, FilledBy;
    if n > 0 {
      BookedSplit(applied, fills, k, n - 1);
      KeyWithin(fills, k, n - 1);
      PrefixReads(applied + Keys(fills[..k]), fills, n);
      PrefixReads(applied, fills, n);
    } else {
      NothingRead(applied);
      NothingRead(applied + Keys(fills[..k]));
      assert fills[..0] == [];
    }
  }
}
