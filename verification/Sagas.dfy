// One order's saga: the state machine an order's venue facts drive under at-least-once delivery.
// Quantities are whole lots.

module Sagas {
  import opened Domain

  datatype State =
    | Pending | Submitted | Live | PartiallyFilled
    | Filled | Cancelled | Denied | Rejected | Failed

  predicate Terminal(state: State) {
    state.Filled? || state.Cancelled? || state.Denied? || state.Rejected? || state.Failed?
  }

  predicate Working(state: State) {
    state.Live? || state.PartiallyFilled?
  }

  predicate Legal(from: State, to: State) {
    match from
    case Pending => to.Submitted? || to.Denied? || to.Failed?
    case Submitted => Working(to) || to.Filled? || to.Cancelled? || to.Rejected? || to.Failed?
    case Live => to.PartiallyFilled? || to.Filled? || to.Cancelled? || to.Rejected?
    case PartiallyFilled => to.PartiallyFilled? || to.Filled? || to.Cancelled?
    case _ => false
  }

  /** A state is terminal exactly where no transition leaves it, and the machine has no cycle but the
      partial fill's own. */
  lemma TerminalIsFinal(from: State)
    ensures Terminal(from) <==> forall to :: !Legal(from, to)
    ensures forall to :: Legal(from, to) ==> Rank(from) < Rank(to) || (from == PartiallyFilled && to == PartiallyFilled)
  {
    assert !Terminal(from) ==> Legal(from, if from.Pending? then Failed else Cancelled);
  }

  // What an event dedups on: one entry per state, and one per venue trade.
  datatype EventKey = StatusKey(state: State) | TradeKey(trade: string)

  datatype Saga = Saga(quantity: int, state: State, cum: nat, applied: set<EventKey>)

  function Fresh(quantity: int): Saga {
    Saga(quantity, Pending, 0, {})
  }

  // What the guard's denial leaves at place: the one terminal the venue never sees.
  function Turned(quantity: int): Saga {
    Saga(quantity, Denied, 0, {StatusKey(Denied)})
  }

  // How a saga begins: written ahead of the send, or denied and never sent.
  function Start(quantity: int, denied: bool): Saga {
    if denied then Turned(quantity) else Fresh(quantity)
  }

  // A denial is the same dedup and legality authority's step from the fresh order.
  lemma DenialIsAStep(quantity: int)
    ensures ApplyEvent(Fresh(quantity), StatusKey(Denied), Denied, 0) == Advanced(Turned(quantity))
  {
    assert {} + {StatusKey(Denied)} == {StatusKey(Denied)};
  }

  datatype Step<+T> = Advanced(value: T) | Duplicate | Illegal

  // The one dedup and legality authority. The dedup comes first.
  function ApplyEvent(s: Saga, key: EventKey, target: State, cum: nat): Step<Saga> {
    if key in s.applied then Duplicate
    else if !Legal(s.state, target) then Illegal
    else Advanced(s.(state := target, cum := cum, applied := s.applied + {key}))
  }

  // A non-positive quantity is refused ahead of the dedup, so it never spends the trade id.
  function Recorded(s: Saga, trade: string, quantity: int): Step<Saga> {
    if quantity <= 0 then Illegal
    else
      var cum := s.cum + quantity;
      ApplyEvent(s, TradeKey(trade), if cum >= s.quantity then Filled else PartiallyFilled, cum)
  }

  // A venue fact about one order. `Status` also carries a reconciler's verdict.
  datatype Fact = Status(state: State) | Fill(trade: string, quantity: int)

  function KeyOf(f: Fact): EventKey {
    match f
    case Status(state) => StatusKey(state)
    case Fill(trade, _) => TradeKey(trade)
  }

  // The statuses that map to a transition.
  predicate Mapped(state: State) {
    state.Submitted? || state.Live? || state.Cancelled? || state.Rejected? || state.Failed?
  }

  function Attempt(s: Saga, f: Fact): Step<Saga> {
    match f
    case Status(state) =>
      if Terminal(s.state) || !Mapped(state) then Duplicate else ApplyEvent(s, KeyOf(f), state, s.cum)
    case Fill(trade, quantity) => Recorded(s, trade, quantity)
  }

  // The saga after a fact, or `None` where the fact faults the run.
  function Handle(s: Saga, f: Fact): Option<Saga> {
    match Attempt(s, f)
    case Advanced(next) => Some(next)
    case Duplicate => Some(s)
    case Illegal => None
  }

  function Run(s: Saga, facts: seq<Fact>): Option<Saga> {
    if facts == [] then Some(s) else
      match Run(s, facts[..|facts| - 1])
      case Some(before) => Handle(before, facts[|facts| - 1])
      case None => None
  }

  lemma RunSteps(s: Saga, facts: seq<Fact>, f: Fact)
    ensures Run(s, facts + [f]) == if Run(s, facts).Some? then Handle(Run(s, facts).value, f) else None
    ensures Run(s, []) == Some(s)
  {
    assert (facts + [f])[..|facts|] == facts;
  }

  // ----- What every run keeps -----

  ghost predicate NoFills(s: Saga) {
    s.cum == 0 && forall t :: TradeKey(t) !in s.applied
  }

  ghost predicate Sound(s: Saga) {
    && (!s.state.Denied? ==> s.quantity > 0 && (s.state.Filled? <==> s.cum >= s.quantity))
    && (s.state.PartiallyFilled? ==> s.cum > 0)
    && (!s.state.PartiallyFilled? && !s.state.Filled? && !s.state.Cancelled? ==> NoFills(s))
    && (s.cum == 0 <==> NoFills(s))
    && (s.state.Pending? ==> s.applied == {})
    && (s.state.Submitted? ==> s.applied <= {StatusKey(Submitted)})
    && (StatusKey(Live) in s.applied ==> !s.state.Pending? && !s.state.Submitted?)
    && (s.state.Live? ==> StatusKey(Live) in s.applied)
    && (!s.state.Pending? && !s.state.Denied? && !s.state.Failed? ==> StatusKey(Submitted) in s.applied)
    && (!Terminal(s.state) ==> forall t :: Terminal(t) ==> StatusKey(t) !in s.applied)
  }

  lemma HandleKeepsSound(s: Saga, f: Fact)
    requires Sound(s)
    ensures Handle(s, f).Some? ==> Sound(Handle(s, f).value) && (Handle(s, f).value.state.Denied? <==> s.state.Denied?)
  {}

  // A denied order keeps the quantity it was asked for, whatever that was.
  lemma {:induction false} RunKeepsSound(quantity: int, denied: bool, facts: seq<Fact>)
    requires denied || quantity > 0
    ensures var r := Run(Start(quantity, denied), facts);
      r.Some? ==> Sound(r.value) && r.value.quantity == quantity && (r.value.state.Denied? <==> denied)
  {
    if facts != [] {
      RunKeepsSound(quantity, denied, facts[..|facts| - 1]);
      var before := Run(Start(quantity, denied), facts[..|facts| - 1]);
      if before.Some? {
        HandleKeepsSound(before.value, facts[|facts| - 1]);
      }
    }
  }

  // ----- Convergence under duplicates -----

  predicate Seen(facts: seq<Fact>, key: EventKey) {
    exists i :: 0 <= i < |facts| && KeyOf(facts[i]) == key
  }

  // Each key's first delivery only.
  function FirstDeliveries(facts: seq<Fact>): (d: seq<Fact>)
    ensures |d| <= |facts|
  {
    if facts == [] then [] else
      var d, last := FirstDeliveries(facts[..|facts| - 1]), facts[|facts| - 1];
      if Seen(facts[..|facts| - 1], KeyOf(last)) then d else d + [last]
  }

  function FilledBy(facts: seq<Fact>): int {
    if facts == [] then 0 else
      var last := facts[|facts| - 1];
      FilledBy(facts[..|facts| - 1]) + if last.Fill? then last.quantity else 0
  }

  predicate PositiveFills(facts: seq<Fact>) {
    forall i :: 0 <= i < |facts| && facts[i].Fill? ==> facts[i].quantity > 0
  }

  // A fact whose key came before changes nothing any more.
  predicate Spent(s: Saga, key: EventKey) {
    key in s.applied || (key.StatusKey? && (Terminal(s.state) || !Mapped(key.state)))
  }

  lemma SpentStays(s: Saga, f: Fact, key: EventKey)
    requires Handle(s, f).Some?
    ensures Spent(s, key) || key == KeyOf(f) ==> Spent(Handle(s, f).value, key)
  {}

  // A spent fact is absorbed, unless its quantity faults it; any other books itself and nothing more.
  lemma HandleReads(s: Saga, f: Fact)
    ensures Spent(s, KeyOf(f)) ==> Handle(s, f) == if f.Fill? && f.quantity <= 0 then None else Some(s)
    ensures Handle(s, f).Some? ==>
      && (f.Fill? ==> f.quantity > 0)
      && Handle(s, f).value.applied <= s.applied + {KeyOf(f)}
      && Handle(s, f).value.cum == s.cum + (if f.Fill? && KeyOf(f) !in s.applied then f.quantity else 0)
  {}

  /** Convergence: a sequence of facts with arbitrary duplicates leaves exactly the saga its first
      deliveries leave, and `cum` is the sum of the distinct fills. It faults exactly when the
      first deliveries fault or a fill has a non-positive quantity. */
  lemma {:induction false} Converges(s: Saga, facts: seq<Fact>)
    ensures Run(s, facts).Some? <==> Run(s, FirstDeliveries(facts)).Some? && PositiveFills(facts)
    ensures Run(s, facts).Some? ==>
      && Run(s, facts) == Run(s, FirstDeliveries(facts))
      && (forall key :: Seen(facts, key) ==> Spent(Run(s, facts).value, key))
      && (forall key :: key in Run(s, facts).value.applied ==> key in s.applied || Seen(facts, key))
      && (NoFills(s) ==> Run(s, facts).value.cum == FilledBy(FirstDeliveries(facts)))
  {
    hide Handle, Spent, PositiveFills, Seen;
    if facts == [] {
      NothingSeen(s);
    } else {
      var before, last := facts[..|facts| - 1], facts[|facts| - 1];
      Converges(s, before);
      assert facts == before + [last];
      assert forall key :: Seen(facts, key) <==> Seen(before, key) || key == KeyOf(last) by {
        LastSeen(before, last);
      }
      PositiveLast(before, last);
      var d := FirstDeliveries(before);
      if !Seen(before, KeyOf(last)) {
        assert (d + [last])[..|d|] == d;
      }
      if Run(s, before).Some? {
        var mid := Run(s, before).value;
        HandleReads(mid, last);
        if Handle(mid, last).Some? {
          forall key | Seen(facts, key) ensures Spent(Handle(mid, last).value, key) {
            SpentStays(mid, last, key);
          }
        }
      }
    }
  }

  lemma NothingSeen(s: Saga)
    ensures PositiveFills([]) && forall key :: !Seen([], key)
  {}

  lemma PositiveLast(before: seq<Fact>, last: Fact)
    ensures PositiveFills(before + [last]) <==> PositiveFills(before) && (last.Fill? ==> last.quantity > 0)
  {
    var facts := before + [last];
    assert facts[|before|] == last;
    assert forall i :: 0 <= i < |before| ==> before[i] == facts[i];
  }

  lemma LastSeen(before: seq<Fact>, last: Fact)
    ensures forall key :: Seen(before + [last], key) <==> Seen(before, key) || key == KeyOf(last)
  {
    var facts := before + [last];
    assert facts[|before|] == last;
    forall key ensures Seen(facts, key) <==> Seen(before, key) || key == KeyOf(last) {
      if Seen(before, key) {
        var i :| 0 <= i < |before| && KeyOf(before[i]) == key;
        assert facts[i] == before[i];
      }
    }
  }

  /** Where a run can end: denied exactly where it was denied at place, filled exactly when the fills
      reach the quantity, no fills behind a denial, a rejection or a failure. */
  lemma Outcomes(quantity: int, denied: bool, facts: seq<Fact>)
    requires (denied || quantity > 0) && Run(Start(quantity, denied), facts).Some?
    ensures var s, filled := Run(Start(quantity, denied), facts).value, FilledBy(FirstDeliveries(facts));
      && (s.state.Denied? <==> denied)
      && (!denied ==> (s.state.Filled? <==> filled >= quantity))
      && (s.state.Denied? || s.state.Rejected? || s.state.Failed? ==> filled == 0)
      && (s.state.PartiallyFilled? ==> 0 < filled < quantity)
  {
    RunKeepsSound(quantity, denied, facts);
    Converges(Start(quantity, denied), facts);
  }

  /** Terminal is terminal: a status is absorbed, a booked fill is absorbed, and a fill never seen
      before faults rather than move a finished order. */
  lemma TerminalAbsorbs(s: Saga, f: Fact)
    requires Terminal(s.state)
    ensures Handle(s, f) == Some(s) || Handle(s, f).None?
    ensures Handle(s, f).None? <==> f.Fill? && (f.quantity <= 0 || KeyOf(f) !in s.applied)
  {}

  function Rank(state: State): nat {
    match state
    case Pending => 0
    case Submitted => 1
    case Live => 2
    case PartiallyFilled => 3
    case _ => 4
  }

  // How far a saga is from done: stages left, then lots left to fill.
  predicate Closer(next: Saga, s: Saga) {
    || Rank(next.state) > Rank(s.state)
    || (Rank(next.state) == Rank(s.state) && s.cum < next.cum < s.quantity == next.quantity)
  }

  /** Every accepted event strictly advances the saga in a well-founded order, so an order accepts
      finitely many. */
  lemma AcceptedAdvances(s: Saga, f: Fact)
    requires Sound(s) && Attempt(s, f).Advanced?
    ensures Closer(Attempt(s, f).value, s) && s.cum < s.quantity
  {}

  // The events a run accepts.
  function Accepted(s: Saga, facts: seq<Fact>): nat {
    if facts == [] then 0 else
      var before := Run(s, facts[..|facts| - 1]);
      Accepted(s, facts[..|facts| - 1])
        + if before.Some? && Attempt(before.value, facts[|facts| - 1]).Advanced? then 1 else 0
  }

  // Two stages before the first fill, and a lot at least with each event from there.
  ghost predicate Bounded(s: Saga, accepted: nat) {
    if s.state.Denied? then accepted == 0
    else if Terminal(s.state) then accepted <= s.quantity + 2
    else accepted <= (if s.state.PartiallyFilled? then 2 + s.cum else Rank(s.state))
  }

  lemma {:induction false} AcceptedBounded(quantity: int, denied: bool, facts: seq<Fact>)
    requires (denied || quantity > 0) && Run(Start(quantity, denied), facts).Some?
    ensures Bounded(Run(Start(quantity, denied), facts).value, Accepted(Start(quantity, denied), facts))
  {
    RunKeepsSound(quantity, denied, facts);
    if facts != [] {
      AcceptedBounded(quantity, denied, facts[..|facts| - 1]);
      RunKeepsSound(quantity, denied, facts[..|facts| - 1]);
    }
  }

  /** However many facts arrive, an order of `quantity` lots accepts at most `quantity + 2` of them:
      the submission, the ack, a fill a lot, or one of those replaced by the terminal. */
  lemma RunAcceptsFew(quantity: int, facts: seq<Fact>)
    requires quantity > 0 && Run(Fresh(quantity), facts).Some?
    ensures Accepted(Fresh(quantity), facts) <= quantity + 2
  {
    AcceptedBounded(quantity, false, facts);
    RunKeepsSound(quantity, false, facts);
  }

  // ----- The order as the engine holds it -----

  // A canonical event: what it dedups on, the state it enters, and what else it carries. `cum` is a
  // fill's cumulative quantity, `reason` a denial's, a rejection's or a failure's.
  datatype OrderEvent = OrderEvent(key: EventKey, target: State, cum: Option<nat>, venueOid: Option<string>, ts: int,
                                   reason: Option<string>)

  // An order's durable row.
  datatype Venue = Venue(oid: Option<string>, ackedTs: Option<int>, reason: Option<string>)
  datatype Cancel = Cancel(requested: bool, ts: Option<int>, signal: Option<int>)
  datatype OrderRow = OrderRow(saga: Saga, seqNo: int, venue: Venue, cancel: Cancel)

  class Order {
    const cloid: string
    const seqNo: int
    const quantity: int
    var state: State
    var cum: nat
    var applied: set<EventKey>
    var venue: Venue
    var cancelRequested: bool
    var cancelRequestedTs: Option<int>
    var cancelSeq: Option<int>

    function View(): Saga
      reads this
    {
      Saga(quantity, state, cum, applied)
    }

    function Row(): OrderRow
      reads this
    {
      OrderRow(View(), seqNo, venue, Cancel(cancelRequested, cancelRequestedTs, cancelSeq))
    }

    constructor (cloid: string, seqNo: int, quantity: int)
      ensures this.cloid == cloid
      ensures Row() == OrderRow(Fresh(quantity), seqNo, Venue(None, None, None), Cancel(false, None, None))
    {
      this.cloid, this.seqNo, this.quantity := cloid, seqNo, quantity;
      state, cum, applied, venue := Pending, 0, {}, Venue(None, None, None);
      cancelRequested, cancelRequestedTs, cancelSeq := false, None, None;
    }

    // An order read back from its row, its dedup set and cancel marker included.
    constructor Restored(cloid: string, row: OrderRow)
      ensures this.cloid == cloid && Row() == row
    {
      this.cloid, seqNo, quantity := cloid, row.seqNo, row.saga.quantity;
      state, cum, applied, venue := row.saga.state, row.saga.cum, row.saga.applied, row.venue;
      cancelRequested, cancelRequestedTs, cancelSeq := row.cancel.requested, row.cancel.ts, row.cancel.signal;
    }

    // A fresher venue id wins, the ack stamps once the order is live, and a reason only replaces one.
    method Apply(event: OrderEvent) returns (r: Step<()>)
      modifies `state, `cum, `applied, `venue
      ensures match ApplyEvent(old(View()), event.key, event.target, event.cum.GetOr(old(cum)))
              case Advanced(next) =>
                && r == Advanced(()) && View() == next
                && venue.oid == (if event.venueOid.Some? then event.venueOid else old(venue.oid))
                && venue.ackedTs == (if event.target == Live then Some(event.ts) else old(venue.ackedTs))
                && venue.reason == (if event.reason.Some? then event.reason else old(venue.reason))
              case Duplicate => r == Duplicate && Row() == old(Row())
              case Illegal => r == Illegal && Row() == old(Row())
    {
      if event.key in applied {
        return Duplicate;
      }
      if !Legal(state, event.target) {
        return Illegal;
      }
      state := event.target;
      if event.venueOid.Some? {
        venue := venue.(oid := event.venueOid);
      }
      if event.target.Live? {
        venue := venue.(ackedTs := Some(event.ts));
      }
      if event.cum.Some? {
        cum := event.cum.value;
      }
      if event.reason.Some? {
        venue := venue.(reason := event.reason);
      }
      applied := applied + {event.key};
      return Advanced(());
    }

    method RecordFill(trade: string, fill: int, ts: int) returns (r: Step<()>)
      modifies `state, `cum, `applied, `venue
      ensures match Recorded(old(View()), trade, fill)
              case Advanced(next) => r == Advanced(()) && Row() == old(Row()).(saga := next)
              case Duplicate => r == Duplicate && Row() == old(Row())
              case Illegal => r == Illegal && Row() == old(Row())
    {
      if fill <= 0 {
        return Illegal;
      }
      var total := cum + fill;
      var target := if total >= quantity then Filled else PartiallyFilled;
      r := Apply(OrderEvent(TradeKey(trade), target, Some(total), venue.oid, ts, None));
    }

    method RequestCancel(signal: int, ts: int) returns (marked: bool)
      modifies `cancelRequested, `cancelRequestedTs, `cancelSeq
      ensures marked <==> !Terminal(state) && !old(cancelRequested)
      ensures marked ==> cancelRequested && cancelRequestedTs == Some(ts) && cancelSeq == Some(signal)
      ensures !marked ==>
        && cancelRequested == old(cancelRequested)
        && cancelRequestedTs == old(cancelRequestedTs)
        && cancelSeq == old(cancelSeq)
    {
      if Terminal(state) || cancelRequested {
        return false;
      }
      cancelRequested, cancelRequestedTs, cancelSeq := true, Some(ts), Some(signal);
      return true;
    }

    method RequestCancelAll(signal: int, ts: int) returns (send: bool)
      modifies `cancelRequested, `cancelRequestedTs, `cancelSeq
      ensures send <==>
        !Terminal(state) && seqNo < signal && (old(cancelSeq).Some? ==> old(cancelSeq).value < signal)
      ensures send ==> cancelRequested && cancelRequestedTs == Some(old(cancelRequestedTs).GetOr(ts))
      ensures !send ==> cancelRequested == old(cancelRequested) && cancelRequestedTs == old(cancelRequestedTs)
      ensures cancelSeq == if send then Some(signal) else old(cancelSeq)
      ensures !Terminal(state) ==> cancelSeq == Marked(seqNo, old(cancelSeq), signal)
    {
      if Terminal(state) {
        return false;
      }
      if seqNo >= signal {
        return false;
      }
      if cancelSeq.Some? && cancelSeq.value >= signal {
        return false;
      }
      cancelRequested := true;
      if cancelRequestedTs.None? {
        cancelRequestedTs := Some(ts);
      }
      cancelSeq := Some(signal);
      return true;
    }

    // The operator's own cancel consumes no strategy seq, and sends again whatever was marked.
    method MarkOperatorCancel(ts: int)
      modifies `cancelRequested, `cancelRequestedTs
      ensures cancelRequested == (old(cancelRequested) || !Terminal(state))
      ensures cancelRequestedTs ==
        if Terminal(state) || old(cancelRequestedTs).Some? then old(cancelRequestedTs) else Some(ts)
    {
      if Terminal(state) {
        return;
      }
      cancelRequested := true;
      if cancelRequestedTs.None? {
        cancelRequestedTs := Some(ts);
      }
    }
  }

  // ----- Cancel all, redelivered in any order -----

  predicate Reaches(own: int, mark: Option<int>, signal: int) {
    own < signal && (mark.Some? ==> mark.value < signal)
  }

  function Marked(own: int, mark: Option<int>, signal: int): Option<int> {
    if Reaches(own, mark, signal) then Some(signal) else mark
  }

  function MarkedBy(own: int, mark: Option<int>, signals: seq<int>): Option<int> {
    if signals == [] then mark
    else Marked(own, MarkedBy(own, mark, signals[..|signals| - 1]), signals[|signals| - 1])
  }

  // `m` is the latest of the marker and the cancel alls sent after the order.
  ghost predicate Latest(own: int, mark: Option<int>, signals: seq<int>, m: Option<int>) {
    && (m == mark || (m.Some? && m.value in signals && m.value > own))
    && (mark.Some? ==> m.Some? && m.value >= mark.value)
    && forall i :: 0 <= i < |signals| && signals[i] > own ==> m.Some? && m.value >= signals[i]
  }

  /** However cancel alls are duplicated and reordered, the marker ends at the latest seq among them
      that is later than the order's own; a cancel all sent before the order never reaches it. */
  lemma {:induction false} CancelAllSettles(own: int, mark: Option<int>, signals: seq<int>)
    ensures Latest(own, mark, signals, MarkedBy(own, mark, signals))
  {
    if signals != [] {
      CancelAllSettles(own, mark, signals[..|signals| - 1]);
    }
  }

  // The marker alone decides, so the same cancel alls in any order and multiplicity settle alike.
  lemma CancelAllOrderless(own: int, mark: Option<int>, a: seq<int>, b: seq<int>)
    requires forall x :: x in a <==> x in b
    ensures MarkedBy(own, mark, a) == MarkedBy(own, mark, b)
  {
    CancelAllSettles(own, mark, a);
    CancelAllSettles(own, mark, b);
    var m, n := MarkedBy(own, mark, a), MarkedBy(own, mark, b);
    if m.Some? && m.value in a {
      assert m.value in b;
    }
    if n.Some? && n.value in b {
      assert n.value in a;
    }
  }
}
