// The two event buses: an in-memory FIFO trampoline, and a log with a poll loop. On one partition
// and with one top-level publisher at a time, the second refines the first.
//
// Handlers are deterministic: each maps the world and an event to a new world, the events it
// published, and whether it then failed.

module Bus {
  import opened Domain

  datatype Reply<E, H> = Reply(world: H, out: seq<E>, fault: bool)

  datatype Entry<!E, !H> = Entry(accepts: E -> bool, handler: (H, E) -> Reply<E, H>)

  // Every matching subscriber in registration order; a failure skips the rest.
  function Dispatch<E, H>(entries: seq<Entry<E, H>>, world: H, event: E): Reply<E, H> {
    if entries == [] then Reply(world, [], false)
    else if !entries[0].accepts(event) then Dispatch(entries[1..], world, event)
    else
      var r := entries[0].handler(world, event);
      if r.fault then r else
        var rest := Dispatch(entries[1..], r.world, event);
        Reply(rest.world, r.out + rest.out, rest.fault)
  }

  /** One subscriber: its handler's reply where it accepts the event, and nothing where it does not. */
  lemma DispatchOne<E, H>(entry: Entry<E, H>, world: H, event: E)
    ensures Dispatch([], world, event) == Reply(world, [], false)
    ensures entry.accepts(event) ==> Dispatch([entry], world, event) == entry.handler(world, event)
    ensures !entry.accepts(event) ==> Dispatch([entry], world, event) == Reply(world, [], false)
  {
    assert [entry][1..] == [];
    var r := entry.handler(world, event);
    assert r.out + [] == r.out;
  }

  /** More subscribers: those registered later hear the event behind the earlier ones, in the world
      those left, and everything published is kept in order; behind a failure nobody hears it. With one
      subscriber's reply this fixes the reply of any list of them. */
  lemma {:induction false} DispatchAppend<E, H>(a: seq<Entry<E, H>>, b: seq<Entry<E, H>>, world: H, event: E)
    ensures var first := Dispatch(a, world, event);
      var rest := Dispatch(b, first.world, event);
      Dispatch(a + b, world, event) ==
        if first.fault then first else Reply(rest.world, first.out + rest.out, rest.fault)
    decreases a
  {
    var first := Dispatch(a, world, event);
    var rest := Dispatch(b, first.world, event);
    if a == [] {
      assert a + b == b && first.out + rest.out == rest.out;
    } else {
      assert (a + b)[1..] == a[1..] + b;
      if a[0].accepts(event) {
        var r := a[0].handler(world, event);
        DispatchAppend(a[1..], b, r.world, event);
        var tail := Dispatch(a[1..], r.world, event);
        assert r.out + (tail.out + rest.out) == (r.out + tail.out) + rest.out;
      } else {
        DispatchAppend(a[1..], b, world, event);
      }
    }
  }

  method DispatchAll<E, H>(entries: seq<Entry<E, H>>, world: H, event: E) returns (r: Reply<E, H>)
    ensures r == Dispatch(entries, world, event)
  {
    r := Reply(world, [], false);
    ghost var whole := Dispatch(entries, world, event);
    for i := 0 to |entries|
      invariant !r.fault
      invariant var rest := Dispatch(entries[i..], r.world, event);
        whole == Reply(rest.world, r.out + rest.out, rest.fault)
    {
      assert entries[i..][1..] == entries[i + 1..];
      if entries[i].accepts(event) {
        var one := entries[i].handler(r.world, event);
        assert one.fault ==> Dispatch(entries[i..], r.world, event) == one;
        assert !one.fault ==>
          var rest := Dispatch(entries[i + 1..], one.world, event);
          r.out + (one.out + rest.out) == (r.out + one.out) + rest.out;
        r := Reply(one.world, r.out + one.out, one.fault);
        if r.fault {
          return;
        }
      }
    }
    assert r.out + [] == r.out;
  }

  datatype Outcome = Returned | Raised

  // ----- The in-memory bus -----

  // `trace` is every event dispatched and `outcomes` how each top-level publish ended.
  datatype Mem<E, H> = Mem(queue: seq<E>, draining: bool, fault: bool, world: H, trace: seq<E>, outcomes: seq<Outcome>)

  function MemPublish<E, H>(m: Mem<E, H>, event: E): Mem<E, H> {
    m.(queue := m.queue + [event], draining := true)
  }

  // Dispatch the head, append what it published; a fault drops the queued tail.
  function MemStep<E, H>(entries: seq<Entry<E, H>>, m: Mem<E, H>): Mem<E, H>
    requires m.queue != []
  {
    var r := Dispatch(entries, m.world, m.queue[0]);
    m.(queue := if r.fault then [] else m.queue[1..] + r.out, fault := m.fault || r.fault,
       world := r.world, trace := m.trace + [m.queue[0]])
  }

  // The publish that began the cascade ends.
  function MemFinish<E, H>(m: Mem<E, H>): Mem<E, H> {
    m.(draining := false, fault := false, outcomes := m.outcomes + [if m.fault then Raised else Returned])
  }

  datatype MemEvent<E> = Publishes(event: E) | Dispatches | Finishes

  function MemNext<E, H>(entries: seq<Entry<E, H>>, m: Mem<E, H>, ev: MemEvent<E>): Mem<E, H> {
    match ev
    case Publishes(event) => if m.draining then m else MemPublish(m, event)
    case Dispatches => if m.draining && m.queue != [] then MemStep(entries, m) else m
    case Finishes => if m.draining && m.queue == [] then MemFinish(m) else m
  }

  function Start<E, H>(world: H): Mem<E, H> {
    Mem([], false, false, world, [], [])
  }

  function MemRun<E, H>(entries: seq<Entry<E, H>>, m: Mem<E, H>, events: seq<MemEvent<E>>): Mem<E, H> {
    if events == [] then m else MemNext(entries, MemRun(entries, m, events[..|events| - 1]), events[|events| - 1])
  }

  /** One step of a cascade. What the event's handlers publish queues behind what was published before it,
      and a failure drops all of it and is raised where the cascade ends; a cascade without one returns. */
  lemma CascadeStep<E, H>(entries: seq<Entry<E, H>>, m: Mem<E, H>)
    requires m.draining && m.queue != [] && !m.fault
    ensures var r := Dispatch(entries, m.world, m.queue[0]);
      var after := MemNext(entries, m, Dispatches);
      && after.world == r.world && after.trace == m.trace + [m.queue[0]] && after.outcomes == m.outcomes
      && after.queue == (if r.fault then [] else m.queue[1..] + r.out)
      && (after.queue == [] ==>
            var end := MemNext(entries, after, Finishes);
            && !end.draining && !end.fault && end.trace == after.trace && end.world == after.world
            && end.outcomes == m.outcomes + [if r.fault then Raised else Returned])
  {}

  // A step that is its turn: the bus is never left a choice but what to publish.
  predicate Can<E, H>(m: Mem<E, H>, ev: MemEvent<E>) {
    match ev
    case Publishes(_) => !m.draining
    case Dispatches => m.draining && m.queue != []
    case Finishes => m.draining && m.queue == []
  }

  lemma OutOfTurn<E, H>(entries: seq<Entry<E, H>>, m: Mem<E, H>, ev: MemEvent<E>)
    ensures !Can(m, ev) ==> MemNext(entries, m, ev) == m
  {}

  ghost predicate Enabled<E, H>(entries: seq<Entry<E, H>>, m: Mem<E, H>, events: seq<MemEvent<E>>) {
    forall i :: 0 <= i < |events| ==> Can(MemRun(entries, m, events[..i]), events[i])
  }

  // What the top-level publishes of a run published, in order.
  function Published<E>(events: seq<MemEvent<E>>): (p: seq<E>)
    ensures |p| <= |events|
  {
    if events == [] then [] else
      var before, ev := Published(events[..|events| - 1]), events[|events| - 1];
      if ev.Publishes? then before + [ev.event] else before
  }

  class InMemoryBus<E, H> {
    const entries: seq<Entry<E, H>>
    var queue: seq<E>
    var draining: bool
    var world: H
    var trace: seq<E>
    var outcomes: seq<Outcome>

    function View(fault: bool): Mem<E, H>
      reads this
    {
      Mem(queue, draining, fault, world, trace, outcomes)
    }

    constructor (entries: seq<Entry<E, H>>, world: H)
      ensures this.entries == entries && View(false) == Start(world)
    {
      this.entries, this.world := entries, world;
      queue, draining, trace, outcomes := [], false, [], [];
    }

    // A cascade can be endless, so the loop runs at most `budget` dispatches; `None` is a publish
    // still draining. A reentrant publish is what a handler's reply carries.
    method Publish(event: E, budget: nat) returns (r: seq<Outcome>, ghost run: seq<MemEvent<E>>)
      requires !draining && queue == []
      modifies this
      ensures |r| <= 1
      ensures r == [] ==> draining && |run| == budget + 1
      ensures r != [] ==> !draining && queue == [] && outcomes == old(outcomes) + r
      ensures exists fault :: View(fault) == MemRun(entries, old(View(false)), run) && (r != [] ==> !fault)
      ensures run != [] && run[0] == Publishes(event)
    {
      ghost var start := View(false);
      queue := queue + [event];
      run := [Publishes(event)];
      assert run[..0] == [];
      draining := true;
      var left := budget;
      while queue != [] && left > 0
        invariant draining && |run| == budget - left + 1 && run[0] == Publishes(event)
        invariant View(false) == MemRun(entries, start, run)
        invariant outcomes == old(outcomes)
        decreases left
      {
        assert (run + [Dispatches])[..|run|] == run;
        var current := queue[0];
        var reply := DispatchAll(entries, world, current);
        queue, world, trace := queue[1..] + reply.out, reply.world, trace + [current];
        left := left - 1;
        run := run + [Dispatches];
        if reply.fault {
          queue := [];
          assert View(true) == MemRun(entries, start, run);
          assert (run + [Finishes])[..|run|] == run;
          draining, outcomes, r := false, outcomes + [Raised], [Raised];
          run := run + [Finishes];
          assert View(false) == MemRun(entries, start, run);
          return;
        }
      }
      if queue != [] {
        return [], run;
      }
      assert (run + [Finishes])[..|run|] == run;
      draining, outcomes, r := false, outcomes + [Returned], [Returned];
      run := run + [Finishes];
      assert View(false) == MemRun(entries, start, run);
    }
  }

  // ----- The drain fence -----

  lemma Inhabited(s: set<int>)
    ensures s == {} || exists p :: p in s
  {
    if forall p :: p !in s {
      assert s == {};
    }
  }

  function Committed(committed: map<int, int>, partition: int): int {
    if partition in committed then committed[partition] else 0
  }

  function HighWater(produced: map<int, int>, partition: int): int {
    if partition in produced then produced[partition] else -1
  }

  datatype Fence = Fence(produced: map<int, int>, committed: map<int, int>) {
    // A record is passed once the committed position lies behind it.
    predicate Passed(partition: int, offset: int) {
      Committed(committed, partition) > offset
    }

    predicate Pending() {
      exists p :: p in produced && !Passed(p, produced[p])
    }
  }

  datatype FenceCall = Produces(partition: int, offset: int) | Commits(partition: int, offset: int)

  function FenceNext(f: Fence, call: FenceCall): Fence {
    match call
    case Produces(p, offset) => f.(produced := f.produced[p := Max(HighWater(f.produced, p), offset)])
    case Commits(p, offset) => f.(committed := f.committed[p := offset + 1])
  }

  class DrainLedger {
    var producedHighWater: map<int, int>
    var committedPosition: map<int, int>

    function View(): Fence
      reads this
    {
      Fence(producedHighWater, committedPosition)
    }

    constructor ()
      ensures View() == Fence(map[], map[])
    {
      producedHighWater, committedPosition := map[], map[];
    }

    // The mark covers what it covered and this offset, and no other partition's moves.
    method RecordProduced(partition: int, offset: int)
      modifies this`producedHighWater
      ensures View() == FenceNext(old(View()), Produces(partition, offset))
      ensures HighWater(producedHighWater, partition) >= offset
      ensures forall p :: HighWater(producedHighWater, p) >= HighWater(old(producedHighWater), p)
      ensures forall p :: p != partition ==> HighWater(producedHighWater, p) == HighWater(old(producedHighWater), p)
    {
      var current := HighWater(producedHighWater, partition);
      producedHighWater := producedHighWater[partition := if current < offset then offset else current];
    }

    // Exactly the partition's records up to the offset are passed, and no other partition's move.
    method RecordCommitted(partition: int, offset: int)
      modifies this`committedPosition
      ensures View() == FenceNext(old(View()), Commits(partition, offset))
      ensures forall o :: View().Passed(partition, o) <==> o <= offset
      ensures forall p, o :: p != partition ==> (View().Passed(p, o) <==> old(View()).Passed(p, o))
    {
      committedPosition := committedPosition[partition := offset + 1];
    }

    // Idle exactly where every partition's committed position passed its high-water mark.
    method InFlight() returns (r: bool)
      ensures r <==> View().Pending()
    {
      var left := producedHighWater.Keys;
      while left != {}
        invariant left <= producedHighWater.Keys
        invariant forall p :: p in producedHighWater && p !in left ==> View().Passed(p, producedHighWater[p])
        decreases |left|
      {
        Inhabited(left);
        var p :| p in left;
        if Committed(committedPosition, p) <= producedHighWater[p] {
          return true;
        }
        left := left - {p};
      }
      return false;
    }
  }

  // ----- The log bus, on one partition -----

  // Where the top-level publisher is. The record is in the topic from `Sent` on, and in the drain
  // ledger only from `Draining` on.
  datatype Publisher<E> = Free | Sending(event: E) | Sent(offset: nat) | Draining

  // Where the poll loop is. `Flushing` holds what the record's handlers published and is not sent;
  // `Noting` has one such event in the topic and not yet in the drain ledger.
  datatype Poller<E> = Idle | Flushing(held: seq<E>) | Noting(held: seq<E>)

  // `consumed` records were taken from the topic. `produced` and `committed` are the drain ledger's.
  datatype Kafka<E, H> = Kafka(log: seq<E>, consumed: nat, produced: int, committed: int, publisher: Publisher<E>,
                               poller: Poller<E>, fault: bool, world: H, trace: seq<E>, outcomes: seq<Outcome>)

  datatype KafkaEvent<E> = Begin(event: E) | Append | Note | Poll | Flush | NoteHeld | Commit | Drain

  predicate InFlight<E, H>(k: Kafka<E, H>) {
    k.produced >= 0 && k.committed <= k.produced
  }

  // A step whose turn it is not changes nothing.
  function KafkaNext<E, H>(entries: seq<Entry<E, H>>, k: Kafka<E, H>, ev: KafkaEvent<E>): Kafka<E, H> {
    match ev
    case Begin(event) => if k.publisher.Free? then k.(publisher := Sending(event)) else k
    case Append =>
      if k.publisher.Sending? then k.(log := k.log + [k.publisher.event], publisher := Sent(|k.log|)) else k
    case Note =>
      if k.publisher.Sent? then k.(produced := Max(k.produced, k.publisher.offset), publisher := Draining) else k
    case Poll =>
      if !k.poller.Idle? || k.consumed >= |k.log| then k
      else if k.fault then k.(consumed := k.consumed + 1, committed := k.consumed + 1)
      else
        var event := k.log[k.consumed];
        var r := Dispatch(entries, k.world, event);
        var next := k.(consumed := k.consumed + 1, world := r.world, trace := k.trace + [event]);
        if r.fault then next.(fault := true, committed := k.consumed + 1) else next.(poller := Flushing(r.out))
    case Flush =>
      if k.poller.Flushing? && k.poller.held != []
      then k.(log := k.log + [k.poller.held[0]], poller := Noting(k.poller.held[1..])) else k
    case NoteHeld =>
      if k.poller.Noting? then k.(produced := Max(k.produced, |k.log| - 1), poller := Flushing(k.poller.held)) else k
    case Commit =>
      if k.poller.Flushing? && k.poller.held == [] then k.(committed := k.consumed, poller := Idle) else k
    case Drain =>
      if k.publisher.Draining? && !InFlight(k)
      then k.(publisher := Free, fault := false, outcomes := k.outcomes + [if k.fault then Raised else Returned]) else k
  }

  function KafkaRun<E, H>(entries: seq<Entry<E, H>>, world: H, events: seq<KafkaEvent<E>>): Kafka<E, H> {
    if events == [] then Kafka([], 0, -1, 0, Free, Idle, false, world, [], [])
    else KafkaNext(entries, KafkaRun(entries, world, events[..|events| - 1]), events[|events| - 1])
  }

  lemma KafkaSteps<E, H>(entries: seq<Entry<E, H>>, world: H, events: seq<KafkaEvent<E>>, ev: KafkaEvent<E>)
    ensures KafkaRun(entries, world, events + [ev]) == KafkaNext(entries, KafkaRun(entries, world, events), ev)
  {
    assert (events + [ev])[..|events|] == events;
  }

  predicate Sound<E, H>(k: Kafka<E, H>) {
    && k.consumed <= |k.log|
    && k.committed == (if k.poller.Idle? then k.consumed else k.consumed - 1)
    && (!k.poller.Idle? ==> k.consumed > 0 && !k.fault)
    && (k.poller.Noting? ==> k.consumed < |k.log|)
    && (k.publisher.Free? || k.publisher.Sending? ==> k.poller.Idle? && k.consumed == |k.log| && !k.fault)
    && (k.publisher.Sent? ==> k.publisher.offset < |k.log|)
    && (if k.publisher.Sent? then Max(k.produced, k.publisher.offset) else k.produced)
       == |k.log| - 1 - if k.poller.Noting? then 1 else 0
  }

  // The in-memory bus the log bus stands for: what is in the topic and not consumed, behind it what
  // handlers published and is not sent; nothing once a fault drops the tail.
  function Queued<E, H>(k: Kafka<E, H>): seq<E> {
    if k.fault then [] else
      k.log[MinNat(k.consumed, |k.log|)..]
      + (if k.poller.Idle? then [] else k.poller.held)
      + (if k.publisher.Sending? then [k.publisher.event] else [])
  }

  function Abstract<E, H>(k: Kafka<E, H>): Mem<E, H> {
    Mem(Queued(k), !k.publisher.Free?, k.fault, k.world, k.trace, k.outcomes)
  }

  lemma KeepsSound<E, H>(entries: seq<Entry<E, H>>, k: Kafka<E, H>, ev: KafkaEvent<E>)
    requires Sound(k)
    ensures Sound(KafkaNext(entries, k, ev))
  {}

  // The fence: once nothing is in flight, everything sent was consumed and nothing is held.
  lemma IdleMeansQuiet<E, H>(k: Kafka<E, H>)
    requires Sound(k) && k.publisher.Draining? && !InFlight(k)
    ensures k.consumed == |k.log| && k.poller.Idle? && Queued(k) == []
  {}

  // The drain ledger the bus keeps, of its one partition.
  predicate Follows<E, H>(f: Fence, k: Kafka<E, H>) {
    && f.produced.Keys <= {0} && f.committed.Keys <= {0}
    && HighWater(f.produced, 0) == k.produced && Committed(f.committed, 0) == k.committed
  }

  function FenceRun(calls: seq<FenceCall>): Fence {
    if calls == [] then Fence(map[], map[])
    else FenceNext(FenceRun(calls[..|calls| - 1]), calls[|calls| - 1])
  }

  // What a step of the bus tells the drain ledger.
  function CallsOf<E, H>(entries: seq<Entry<E, H>>, k: Kafka<E, H>, ev: KafkaEvent<E>): (calls: seq<FenceCall>)
    ensures |calls| <= 1
  {
    match ev
    case Note => if k.publisher.Sent? then [Produces(0, k.publisher.offset)] else []
    case NoteHeld => if k.poller.Noting? then [Produces(0, |k.log| - 1)] else []
    case Poll =>
      if !k.poller.Idle? || k.consumed >= |k.log| then []
      else if k.fault || Dispatch(entries, k.world, k.log[k.consumed]).fault then [Commits(0, k.consumed)] else []
    case Commit => if k.poller.Flushing? && k.poller.held == [] then [Commits(0, k.consumed - 1)] else []
    case _ => []
  }

  /** The drain ledger and the bus agree: fed the calls each step makes, its two maps read the bus's
      mark and position at all times, so its answer is the one the drain waits on. */
  lemma {:induction false} LedgerFollows<E, H>(entries: seq<Entry<E, H>>, world: H, events: seq<KafkaEvent<E>>)
    returns (calls: seq<FenceCall>)
    ensures |calls| <= |events|
    ensures var k, f := KafkaRun(entries, world, events), FenceRun(calls);
      Sound(k) && Follows(f, k) && (f.Pending() <==> InFlight(k))
  {
    if events == [] {
      calls := [];
    } else {
      var before, ev := KafkaRun(entries, world, events[..|events| - 1]), events[|events| - 1];
      var prefix := LedgerFollows(entries, world, events[..|events| - 1]);
      KeepsSound(entries, before, ev);
      calls := prefix + CallsOf(entries, before, ev);
      CallFollows(entries, before, ev, FenceRun(prefix));
      if CallsOf(entries, before, ev) == [] {
        assert calls == prefix;
      } else {
        assert calls[..|calls| - 1] == prefix;
      }
    }
    PendingReads(FenceRun(calls), KafkaRun(entries, world, events));
  }

  lemma CallFollows<E, H>(entries: seq<Entry<E, H>>, k: Kafka<E, H>, ev: KafkaEvent<E>, f: Fence)
    requires Sound(k) && Follows(f, k)
    ensures var calls := CallsOf(entries, k, ev);
      Follows(if calls == [] then f else FenceNext(f, calls[0]), KafkaNext(entries, k, ev))
  {
    hide Dispatch;
  }

  lemma PendingReads<E, H>(f: Fence, k: Kafka<E, H>)
    requires Sound(k) && Follows(f, k)
    ensures f.Pending() <==> InFlight(k)
  {
    if InFlight(k) {
      assert 0 in f.produced && !f.Passed(0, f.produced[0]);
    }
  }

  // A publish that takes effect: the bus was free.
  predicate Begins<E, H>(k: Kafka<E, H>, ev: KafkaEvent<E>) {
    ev.Begin? && k.publisher.Free?
  }

  // What a run of the log bus published at top level, in order.
  function Begun<E, H>(entries: seq<Entry<E, H>>, world: H, events: seq<KafkaEvent<E>>): seq<E> {
    if events == [] then [] else
      var init, ev := events[..|events| - 1], events[|events| - 1];
      Begun(entries, world, init) + if Begins(KafkaRun(entries, world, init), ev) then [ev.event] else []
  }

  // The steps of the log bus that are one of the in-memory bus.
  lemma MovesAlike<E, H>(entries: seq<Entry<E, H>>, k: Kafka<E, H>, ev: KafkaEvent<E>, abs: MemEvent<E>)
    requires Sound(k)
    requires match ev
             case Begin(event) => k.publisher.Free? && abs == Publishes(event)
             case Poll => k.poller.Idle? && k.consumed < |k.log| && !k.fault && abs == Dispatches
             case Drain => k.publisher.Draining? && !InFlight(k) && abs == Finishes
             case _ => false
    ensures Can(Abstract(k), abs) && Abstract(KafkaNext(entries, k, ev)) == MemNext(entries, Abstract(k), abs)
  {
    hide Dispatch;
    var next := KafkaNext(entries, k, ev);
    match ev
    case Begin(event) => assert Queued(next) == Queued(k) + [event];
    case Poll =>
      assert Queued(k) == k.log[k.consumed..];
      assert k.log[k.consumed..][1..] == k.log[k.consumed + 1..];
    case Drain => IdleMeansQuiet(k);
  }

  // The others are none of it.
  lemma StaysAlike<E, H>(entries: seq<Entry<E, H>>, k: Kafka<E, H>, ev: KafkaEvent<E>)
    requires Sound(k)
    requires match ev
             case Begin(_) => !k.publisher.Free?
             case Poll => !k.poller.Idle? || k.consumed >= |k.log| || k.fault
             case Drain => !k.publisher.Draining? || InFlight(k)
             case _ => true
    ensures Abstract(KafkaNext(entries, k, ev)) == Abstract(k)
  {
    hide Dispatch;
    match ev
    case Append => assert Queued(KafkaNext(entries, k, ev)) == Queued(k);
    case Flush => FlushQueued(entries, k);
    case _ =>
  }

  // Each step of the log bus is one step of the in-memory bus, or none.
  lemma Simulates<E, H>(entries: seq<Entry<E, H>>, k: Kafka<E, H>, ev: KafkaEvent<E>) returns (abs: seq<MemEvent<E>>)
    requires Sound(k)
    ensures |abs| <= 1 && (abs != [] ==> Can(Abstract(k), abs[0]))
    ensures Published(abs) == if Begins(k, ev) then [ev.event] else []
    ensures Abstract(KafkaNext(entries, k, ev)) == MemRun(entries, Abstract(k), abs)
  {
    hide KafkaNext, Sound, Abstract, Can;
    if ev.Begin? && k.publisher.Free? {
      MovesAlike(entries, k, ev, Publishes(ev.event));
      abs := OneStep(entries, Abstract(k), Publishes(ev.event));
    } else if ev.Poll? && k.poller.Idle? && k.consumed < |k.log| && !k.fault {
      MovesAlike(entries, k, ev, Dispatches);
      abs := OneStep(entries, Abstract(k), Dispatches);
    } else if ev.Drain? && k.publisher.Draining? && !InFlight(k) {
      MovesAlike(entries, k, ev, Finishes);
      abs := OneStep(entries, Abstract(k), Finishes);
    } else {
      StaysAlike(entries, k, ev);
      abs := [];
    }
  }

  lemma OneStep<E, H>(entries: seq<Entry<E, H>>, m: Mem<E, H>, ev: MemEvent<E>) returns (abs: seq<MemEvent<E>>)
    ensures abs == [ev] && MemRun(entries, m, abs) == MemNext(entries, m, ev)
    ensures Published(abs) == if ev.Publishes? then [ev.event] else []
  {
    abs := [ev];
    assert abs[..0] == [];
  }

  lemma FlushQueued<E, H>(entries: seq<Entry<E, H>>, k: Kafka<E, H>)
    requires Sound(k)
    ensures Abstract(KafkaNext(entries, k, Flush)) == Abstract(k)
  {
    if k.poller.Flushing? && k.poller.held != [] {
      var next := KafkaNext(entries, k, Flush);
      assert k.poller.held == [k.poller.held[0]] + k.poller.held[1..];
      assert next.log[k.consumed..] == k.log[k.consumed..] + [k.poller.held[0]];
      assert Queued(next) == Queued(k);
    }
  }

  lemma {:induction false} MemRunAppend<E, H>(entries: seq<Entry<E, H>>, m: Mem<E, H>, a: seq<MemEvent<E>>,
                                              b: seq<MemEvent<E>>)
    ensures MemRun(entries, m, a + b) == MemRun(entries, MemRun(entries, m, a), b)
  {
    if b == [] {
      assert a + b == a;
    } else {
      MemRunAppend(entries, m, a, b[..|b| - 1]);
      assert (a + b)[..|a + b| - 1] == a + b[..|b| - 1];
    }
  }

  lemma {:induction false} PublishedAppend<E>(a: seq<MemEvent<E>>, b: seq<MemEvent<E>>)
    ensures Published(a + b) == Published(a) + Published(b)
  {
    if b == [] {
      assert a + b == a;
    } else {
      PublishedAppend(a, b[..|b| - 1]);
      assert (a + b)[..|a + b| - 1] == a + b[..|b| - 1];
    }
  }

  lemma EnabledAppend<E, H>(entries: seq<Entry<E, H>>, m: Mem<E, H>, a: seq<MemEvent<E>>, b: seq<MemEvent<E>>)
    requires Enabled(entries, m, a) && |b| <= 1 && (b != [] ==> Can(MemRun(entries, m, a), b[0]))
    ensures Enabled(entries, m, a + b)
  {
    forall i | 0 <= i < |a + b| ensures Can(MemRun(entries, m, (a + b)[..i]), (a + b)[i]) {
      if i < |a| {
        assert (a + b)[..i] == a[..i];
      } else {
        assert (a + b)[..i] == a;
      }
    }
  }

  /** Bus refinement: for every set of handlers and every interleaving of publisher and poll loop, some
      run of the in-memory bus publishes the same events, dispatches the same events in the same order,
      leaves the same world, and ends every publish the same way, raising each fault once. */
  lemma {:induction false} LogBusRefines<E, H>(entries: seq<Entry<E, H>>, world: H, events: seq<KafkaEvent<E>>)
    returns (abs: seq<MemEvent<E>>)
    ensures |abs| <= |events| && Enabled(entries, Start(world), abs)
    ensures Published(abs) == Begun(entries, world, events)
    ensures var k, m := KafkaRun(entries, world, events), MemRun(entries, Start(world), abs);
      && Sound(k) && Abstract(k) == m
      && k.trace == m.trace && k.world == m.world && k.outcomes == m.outcomes
  {
    hide Enabled;
    if events == [] {
      abs := [];
      NothingDone(entries, Start(world));
    } else {
      var before := KafkaRun(entries, world, events[..|events| - 1]);
      var prefix := LogBusRefines(entries, world, events[..|events| - 1]);
      KeepsSound(entries, before, events[|events| - 1]);
      var step := Simulates(entries, before, events[|events| - 1]);
      MemRunAppend(entries, Start(world), prefix, step);
      PublishedAppend(prefix, step);
      EnabledAppend(entries, Start(world), prefix, step);
      abs := prefix + step;
    }
  }

  lemma NothingDone<E, H>(entries: seq<Entry<E, H>>, m: Mem<E, H>)
    ensures Enabled(entries, m, [])
  {}

  // A bus has one step to take, but for what is published.
  lemma OneChoice<E, H>(m: Mem<E, H>, x: MemEvent<E>, y: MemEvent<E>)
    requires Can(m, x) && Can(m, y)
    ensures x.Publishes? <==> y.Publishes?
    ensures x == y || (x.Publishes? && x.event != y.event)
  {}

  lemma EnabledAt<E, H>(entries: seq<Entry<E, H>>, m: Mem<E, H>, events: seq<MemEvent<E>>, i: nat)
    requires Enabled(entries, m, events) && i < |events|
    ensures Can(MemRun(entries, m, events[..i]), events[i])
  {}

  lemma {:induction false} SameSteps<E, H>(entries: seq<Entry<E, H>>, m: Mem<E, H>, a: seq<MemEvent<E>>,
                                           b: seq<MemEvent<E>>, n: nat)
    requires Enabled(entries, m, a) && Enabled(entries, m, b) && Published(a) == Published(b)
    requires n <= |a| && n <= |b|
    ensures a[..n] == b[..n]
  {
    hide Enabled, MemRun, Can, Published;
    if n > 0 {
      SameSteps(entries, m, a, b, n - 1);
      EnabledAt(entries, m, a, n - 1);
      EnabledAt(entries, m, b, n - 1);
      OneChoice(MemRun(entries, m, a[..n - 1]), a[n - 1], b[n - 1]);
      if a[n - 1].Publishes? {
        NextPublished(a, n - 1);
        NextPublished(b, n - 1);
      }
      assert a[..n] == a[..n - 1] + [a[n - 1]] && b[..n] == b[..n - 1] + [b[n - 1]];
    }
  }

  lemma NextPublished<E>(events: seq<MemEvent<E>>, i: nat)
    requires i < |events| && events[i].Publishes?
    ensures |Published(events[..i])| < |Published(events)|
    ensures Published(events)[|Published(events[..i])|] == events[i].event
  {
    PublishedAppend(events[..i], events[i..]);
    PublishedAppend([events[i]], events[i + 1..]);
    assert events == events[..i] + events[i..] && events[i..] == [events[i]] + events[i + 1..];
    assert [events[i]][..0] == [];
    assert Published([events[i]]) == [events[i].event];
  }

  lemma OneRun<E, H>(entries: seq<Entry<E, H>>, m: Mem<E, H>, a: seq<MemEvent<E>>, b: seq<MemEvent<E>>)
    requires Enabled(entries, m, a) && Enabled(entries, m, b) && Published(a) == Published(b)
    requires |a| <= |b| && !MemRun(entries, m, a).draining
    requires !MemRun(entries, m, b).draining
    ensures a == b
  {
    SameSteps(entries, m, a, b, |a|);
    assert a[..|a|] == a;
    if |a| < |b| {
      assert Can(MemRun(entries, m, b[..|a|]), b[|a|]);
      NextPublished(b, |a|);
      assert false;
    }
    assert b[..|b|] == b;
  }

  /** So the interleaving never shows: two runs of the log bus that published the same events and have
      ended dispatched the same trace, left the same world and ended every publish the same way. */
  lemma OneTrace<E, H>(entries: seq<Entry<E, H>>, world: H, a: seq<KafkaEvent<E>>, b: seq<KafkaEvent<E>>)
    requires Begun(entries, world, a) == Begun(entries, world, b)
    requires KafkaRun(entries, world, a).publisher.Free? && KafkaRun(entries, world, b).publisher.Free?
    ensures var j, k := KafkaRun(entries, world, a), KafkaRun(entries, world, b);
      j.trace == k.trace && j.world == k.world && j.outcomes == k.outcomes
  {
    hide Enabled;
    var x := LogBusRefines(entries, world, a);
    var y := LogBusRefines(entries, world, b);
    if |x| <= |y| {
      OneRun(entries, Start(world), x, y);
    } else {
      OneRun(entries, Start(world), y, x);
    }
  }

  /** A publish ends only when the whole cascade it began is accounted for: every record in the topic
      consumed, nothing held, nothing in flight, no fault left behind. */
  lemma PublishFences<E, H>(entries: seq<Entry<E, H>>, world: H, events: seq<KafkaEvent<E>>)
    ensures var k := KafkaRun(entries, world, events);
      k.publisher.Free? ==> k.consumed == |k.log| == k.committed && k.poller.Idle? && !k.fault && !InFlight(k)
  {
    var _ := LogBusRefines(entries, world, events);
  }

  /** And it can always go on: a publish that has not ended has a step to take, so a drain never waits
      on progress no one will make. */
  lemma NoDeadlock<E, H>(entries: seq<Entry<E, H>>, world: H, events: seq<KafkaEvent<E>>) returns (ev: KafkaEvent<E>)
    requires !KafkaRun(entries, world, events).publisher.Free?
    ensures var k := KafkaRun(entries, world, events); KafkaNext(entries, k, ev) != k
  {
    var k := KafkaRun(entries, world, events);
    var _ := LogBusRefines(entries, world, events);
    ev := if k.publisher.Sending? then Append
          else if k.publisher.Sent? then Note
          else if k.poller.Noting? then NoteHeld
          else if k.poller.Flushing? then (if k.poller.held != [] then Flush else Commit)
          else if k.consumed < |k.log| then Poll
          else Drain;
    if ev.Flush? {
      assert |KafkaNext(entries, k, ev).log| == |k.log| + 1;
    }
  }
}
