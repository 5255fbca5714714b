// Signal identity across crashes: the id's text form, the seq records that keep an id from being
// handed out twice, and the PENDING row that keeps an order from being placed twice. The client
// order id is a hash of the text form, taken as injective.

module Identity {
  import opened Domain

  datatype SignalId = SignalId(strategy: string, symbol: Symbol, seqNo: nat)

  // ----- Text form -----

  const COLON := ':'

  function DigitChar(d: nat): char
    requires d < 10
  {
    "0123456789"[d]
  }

  function DigitValue(c: char): Option<nat> {
    if '0' <= c <= '9' then Some((c as int - '0' as int) as nat) else None
  }

  function Digits(n: nat): string {
    (if n < 10 then [] else Digits(n / 10)) + [DigitChar(n % 10)]
  }

  function ParseNat(s: string): Option<nat> {
    if s == [] then None else
      match DigitValue(s[|s| - 1])
      case None => None
      case Some(d) =>
        if |s| == 1 then Some(d) else
          match ParseNat(s[..|s| - 1])
          case None => None
          case Some(rest) => Some(rest * 10 + d)
  }

  function Render(id: SignalId): string {
    id.strategy + [COLON] + id.symbol + [COLON] + Digits(id.seqNo)
  }

  // The last colon, as a split from the right finds it.
  function LastColon(s: string): Option<nat> {
    if s == [] then None
    else if s[|s| - 1] == COLON then Some(|s| - 1)
    else LastColon(s[..|s| - 1])
  }

  lemma {:induction false} LastColonReads(s: string)
    ensures match LastColon(s)
            case Some(i) => i < |s| && s[i] == COLON && COLON !in s[i + 1..]
            case None => COLON !in s
  {
    if s != [] && s[|s| - 1] != COLON {
      LastColonReads(s[..|s| - 1]);
      var r := LastColon(s[..|s| - 1]);
      if r.Some? {
        assert s[r.value + 1..] == s[..|s| - 1][r.value + 1..] + [s[|s| - 1]];
      } else {
        assert s == s[..|s| - 1] + [s[|s| - 1]];
      }
    }
  }

  // Split from the right, at most twice; `None` is a malformed id.
  function Parse(s: string): Option<SignalId> {
    LastColonReads(s);
    match LastColon(s)
    case None => None
    case Some(i) =>
      LastColonReads(s[..i]);
      match LastColon(s[..i])
      case None => None
      case Some(j) =>
        match ParseNat(s[i + 1..])
        case None => None
        case Some(n) => Some(SignalId(s[..j], s[j + 1..i], n))
  }

  lemma {:induction false} DigitsRoundTrip(n: nat)
    ensures Digits(n) != [] && COLON !in Digits(n) && ParseNat(Digits(n)) == Some(n)
  {
    var init := if n < 10 then [] else Digits(n / 10);
    assert Digits(n)[..|Digits(n)| - 1] == init;
    assert DigitValue(DigitChar(n % 10)) == Some(n % 10);
    if n >= 10 {
      DigitsRoundTrip(n / 10);
    }
  }

  lemma {:induction false} LastColonAt(a: string, b: string)
    requires COLON !in b
    ensures LastColon(a + [COLON] + b) == Some(|a|)
    decreases b
  {
    var s := a + [COLON] + b;
    if b != [] {
      assert s[..|s| - 1] == a + [COLON] + b[..|b| - 1];
      LastColonAt(a, b[..|b| - 1]);
    }
  }

  /** Round trip: parsing undoes rendering exactly for colon-free symbols. A strategy id may hold
      colons. */
  lemma ParseUndoesRender(id: SignalId)
    ensures Parse(Render(id)) == Some(id) <==> COLON !in id.symbol
  {
    hide Digits, ParseNat, LastColon, Render;
    var s, digits := Render(id), Digits(id.seqNo);
    var head := id.strategy + [COLON] + id.symbol;
    DigitsRoundTrip(id.seqNo);
    RenderReads(id);
    LastColonAt(head, digits);
    LastColonReads(head);
    if COLON !in id.symbol {
      LastColonAt(id.strategy, id.symbol);
    } else {
      assert head[|id.strategy|] == COLON;
      if LastColon(head).Some? {
        assert s[LastColon(head).value + 1..|head|] == head[LastColon(head).value + 1..];
      }
    }
  }

  lemma RenderReads(id: SignalId)
    ensures var s, head := Render(id), id.strategy + [COLON] + id.symbol;
      && s == head + [COLON] + Digits(id.seqNo)
      && s[..|head|] == head && s[|head| + 1..] == Digits(id.seqNo)
      && s[..|id.strategy|] == id.strategy && s[|id.strategy| + 1..|head|] == id.symbol
  {
    hide Digits;
  }

  predicate Decimal(s: string) {
    s != [] && forall i :: 0 <= i < |s| ==> '0' <= s[i] <= '9'
  }

  lemma {:induction false} ParsesDecimal(s: string)
    ensures ParseNat(s).Some? <==> Decimal(s)
  {
    if s != [] {
      var init := s[..|s| - 1];
      if |s| > 1 {
        ParsesDecimal(init);
      }
      assert s == init + [s[|s| - 1]];
    }
  }

  /** What parses: a text with a decimal number behind its last colon and a colon ahead of that one. The
      parts are what stands between them, so an id's symbol never holds a colon. */
  lemma ParseLaw(s: string)
    ensures match Parse(s)
            case Some(id) =>
              && COLON !in id.symbol
              && exists digits :: Decimal(digits) && ParseNat(digits) == Some(id.seqNo)
                                  && s == id.strategy + [COLON] + id.symbol + [COLON] + digits
            case None =>
              !exists strategy: string, symbol: string, digits :: Decimal(digits) && COLON !in symbol
                && s == strategy + [COLON] + symbol + [COLON] + digits
  {
    hide Parse, Decimal;
    forall strategy: string, symbol: string, digits |
      Decimal(digits) && COLON !in symbol && s == strategy + [COLON] + symbol + [COLON] + digits
      ensures Parse(s).Some?
    {
      ParseAccepts(strategy, symbol, digits);
    }
    ParseReads(s);
  }

  lemma ParseReads(s: string)
    ensures Parse(s).Some? ==>
      var id := Parse(s).value;
      && COLON !in id.symbol
      && exists digits :: Decimal(digits) && ParseNat(digits) == Some(id.seqNo)
                          && s == id.strategy + [COLON] + id.symbol + [COLON] + digits
  {
    hide ParseNat, LastColon, Decimal;
    LastColonReads(s);
    if Parse(s).Some? {
      var i := LastColon(s).value;
      LastColonReads(s[..i]);
      var j := LastColon(s[..i]).value;
      ParsesDecimal(s[i + 1..]);
      assert s == s[..j] + [COLON] + s[j + 1..i] + [COLON] + s[i + 1..];
      assert s[..i][j + 1..] == s[j + 1..i];
    }
  }

  lemma ParseAccepts(strategy: string, symbol: string, digits: string)
    requires Decimal(digits) && COLON !in symbol
    ensures Parse(strategy + [COLON] + symbol + [COLON] + digits).Some?
  {
    hide ParseNat, LastColon, Decimal;
    var head := strategy + [COLON] + symbol;
    var s := head + [COLON] + digits;
    NoColon(digits);
    LastColonAt(head, digits);
    LastColonAt(strategy, symbol);
    ParsesDecimal(digits);
    assert s[..|head|] == head && s[|head| + 1..] == digits;
  }

  lemma NoColon(digits: string)
    requires Decimal(digits)
    ensures COLON !in digits
  {}

  // So two ids with colon-free symbols never share a text form; with a colon two can.
  lemma RenderIsInjective(a: SignalId, b: SignalId)
    requires COLON !in a.symbol && COLON !in b.symbol && Render(a) == Render(b)
    ensures a == b
  {
    ParseUndoesRender(a);
    ParseUndoesRender(b);
  }

  lemma RenderExample()
    ensures Render(SignalId("grid", "BTC", 12)) == "grid:BTC:12"
  {
    assert Digits(1) == "1" && Digits(12) == Digits(1) + "2";
  }

  lemma ColonSymbolCollides()
    ensures Render(SignalId("a", "b:c", 1)) == Render(SignalId("a:b", "c", 1))
  {
    var x, y := Render(SignalId("a", "b:c", 1)), Render(SignalId("a:b", "c", 1));
    assert |x| == |y|;
    assert x == y;
  }

  // ----- The seq high-water mark -----

  // A saga's row: its own id's seq and the seq of the cancel that marked it, if any.
  datatype Row = Row(strategy: string, seqNo: nat, cancelSeq: Option<nat>)

  function At(m: map<string, nat>, strategy: string): nat {
    if strategy in m then m[strategy] else 0
  }

  function RowSeq(row: Row): nat {
    Max(row.seqNo, row.cancelSeq.GetOr(0))
  }

  // The mark covers every record and every row of the strategy, and is one of them.
  ghost predicate IsHighWater(mark: nat, records: map<string, nat>, rows: seq<Row>, strategy: string) {
    && At(records, strategy) <= mark
    && (forall i :: 0 <= i < |rows| && rows[i].strategy == strategy ==> RowSeq(rows[i]) <= mark)
    && (|| mark == At(records, strategy)
        || exists i :: 0 <= i < |rows| && rows[i].strategy == strategy && RowSeq(rows[i]) == mark)
  }

  method SeqHighWater(records: map<string, nat>, rows: seq<Row>) returns (highWater: map<string, nat>)
    ensures forall s :: IsHighWater(At(highWater, s), records, rows, s)
  {
    highWater := records;
    for i := 0 to |rows|
      invariant forall s :: IsHighWater(At(highWater, s), records, rows[..i], s)
    {
      ghost var before := highWater;
      var row := rows[i];
      var seqs := Max(row.seqNo, if row.cancelSeq.Some? then row.cancelSeq.value else 0);
      highWater := highWater[row.strategy := Max(At(highWater, row.strategy), seqs)];
      forall s ensures IsHighWater(At(highWater, s), records, rows[..i + 1], s) {
        HighWaterStep(At(before, s), records, rows, i, s);
      }
    }
    assert rows[..|rows|] == rows;
  }

  lemma HighWaterStep(mark: nat, records: map<string, nat>, rows: seq<Row>, i: nat, s: string)
    requires i < |rows| && IsHighWater(mark, records, rows[..i], s)
    ensures IsHighWater(if rows[i].strategy == s then Max(mark, RowSeq(rows[i])) else mark, records, rows[..i + 1], s)
  {
    var next := rows[..i + 1];
    assert forall j :: 0 <= j < i ==> next[j] == rows[..i][j];
    assert next[i] == rows[i];
    if mark != At(records, s) {
      var j :| 0 <= j < i && rows[..i][j].strategy == s && RowSeq(rows[..i][j]) == mark;
      assert next[j].strategy == s && RowSeq(next[j]) == mark;
    }
  }

  // ----- The run -----

  // One process life: the seq each strategy last used, the signals recorded and not yet published,
  // and the orders whose PENDING row is durable and whose send has not happened.
  datatype Life = Life(used: map<string, nat>, recorded: set<SignalId>, placing: set<SignalId>)

  // `records` and `rows` are durable: the highest sent seq of a strategy, and each saga with the
  // seq of the cancel that marked it. `sent` and `placed` are the history of publishes and sends.
  datatype World = World(records: map<string, nat>, rows: map<SignalId, Option<nat>>, life: Option<Life>,
                         sent: seq<SignalId>, placed: seq<SignalId>)

  datatype Event =
    | Start(high: map<string, nat>)
    | Record(strategy: string, symbol: Symbol)
    | Publish(id: SignalId)
    | HandlePlace(id: SignalId, approved: bool)
    | Send(id: SignalId)
    | HandleCancel(id: SignalId, target: SignalId)
    | HandleCancelAll(id: SignalId)
    | Crash

  // What the start folds from the store.
  ghost predicate Recovers(high: map<string, nat>, w: World) {
    && (forall s :: At(w.records, s) <= At(high, s))
    && forall id :: id in w.rows ==> id.seqNo <= At(high, id.strategy) && w.rows[id].GetOr(0) <= At(high, id.strategy)
  }

  // A signal in `sent` may be handled at any time and any number of times: redelivery is free.
  ghost function Next(w: World, ev: Event): World {
    match w.life
    case None => if ev.Start? && Recovers(ev.high, w) then w.(life := Some(Life(ev.high, {}, {}))) else w
    case Some(life) =>
      match ev
      case Crash => w.(life := None)
      case Record(s, symbol) =>
        var id := SignalId(s, symbol, At(life.used, s) + 1);
        w.(records := w.records[s := Max(At(w.records, s), id.seqNo)],
           life := Some(life.(used := life.used[s := id.seqNo], recorded := life.recorded + {id})))
      case Publish(id) =>
        if id !in life.recorded then w else
        w.(life := Some(life.(recorded := life.recorded - {id})), sent := w.sent + [id])
      case HandlePlace(id, approved) =>
        if id !in w.sent || id in w.rows then w else
        w.(rows := w.rows[id := None],
           life := Some(if approved then life.(placing := life.placing + {id}) else life))
      case Send(id) =>
        if id !in life.placing then w else
        w.(life := Some(life.(placing := life.placing - {id})), placed := w.placed + [id])
      case HandleCancel(id, target) =>
        if id !in w.sent || target !in w.rows || w.rows[target].Some? then w else
        w.(rows := w.rows[target := Some(id.seqNo)])
      case HandleCancelAll(id) =>
        if id !in w.sent then w else w.(records := w.records[id.strategy := Max(At(w.records, id.strategy), id.seqNo)])
      case _ => w
  }

  ghost function Run(events: seq<Event>): World {
    if events == [] then World(map[], map[], None, [], [])
    else Next(Run(events[..|events| - 1]), events[|events| - 1])
  }

  lemma RunSteps(events: seq<Event>, ev: Event)
    ensures Run(events + [ev]) == Next(Run(events), ev)
    ensures Run([]) == World(map[], map[], None, [], [])
  {
    assert (events + [ev])[..|events|] == events;
  }

  predicate SeqsDiffer(ids: seq<SignalId>) {
    forall i, j :: 0 <= i < j < |ids| ==> (ids[i].strategy, ids[i].seqNo) != (ids[j].strategy, ids[j].seqNo)
  }

  ghost predicate Sound(w: World) {
    && SeqsDiffer(w.sent)
    && (forall id :: id in w.sent ==> id.seqNo <= At(w.records, id.strategy))
    && (forall id :: id in w.rows ==> id in w.sent)
    && (forall id :: id in w.placed ==> id in w.rows)
    && (forall i, j :: 0 <= i < j < |w.placed| ==> w.placed[i] != w.placed[j])
    && (w.life.Some? ==>
          var life := w.life.value;
          && (forall s :: At(w.records, s) <= At(life.used, s))
          && (forall id :: id in life.recorded ==> id.seqNo <= At(w.records, id.strategy))
          && (forall id, other :: id in life.recorded && other in w.sent ==>
            (id.strategy, id.seqNo) != (other.strategy, other.seqNo))
          && (forall id, other :: id in life.recorded && other in life.recorded && id != other ==>
                (id.strategy, id.seqNo) != (other.strategy, other.seqNo))
          && (forall id :: id in life.placing ==> id in w.rows && id !in w.placed))
  }

  lemma StepKeepsSound(w: World, ev: Event)
    requires Sound(w)
    ensures Sound(Next(w, ev))
  {
    hide Next, Sound;
    if w.life.Some? {
      match ev
      case Record(s, symbol) => RecordKeepsSound(w, s, symbol);
      case HandleCancelAll(id) => CancelAllKeepsSound(w, id);
      case Publish(_) => SendingKeepsSound(w, ev);
      case Send(_) => SendingKeepsSound(w, ev);
      case _ => RestKeepsSound(w, ev);
    } else {
      RestKeepsSound(w, ev);
    }
  }

  lemma SendingKeepsSound(w: World, ev: Event)
    requires Sound(w) && w.life.Some? && (ev.Publish? || ev.Send?)
    ensures Sound(Next(w, ev))
  {}

  lemma RestKeepsSound(w: World, ev: Event)
    requires Sound(w) && (w.life.Some? ==> !ev.Record? && !ev.HandleCancelAll? && !ev.Publish? && !ev.Send?)
    ensures Sound(Next(w, ev))
  {}

  lemma RecordKeepsSound(w: World, strategy: string, symbol: Symbol)
    requires Sound(w) && w.life.Some?
    ensures Sound(Next(w, Record(strategy, symbol)))
  {
    var life, next := w.life.value, Next(w, Record(strategy, symbol));
    var id := SignalId(strategy, symbol, At(life.used, strategy) + 1);
    forall s ensures At(w.records, s) <= At(next.records, s) <= At(next.life.value.used, s) {
      assert At(w.records, s) <= At(life.used, s);
    }
    assert forall other :: other in w.sent || other in life.recorded ==> other.seqNo <= At(w.records, other.strategy);
    assert At(w.records, strategy) < id.seqNo;
  }

  lemma CancelAllKeepsSound(w: World, id: SignalId)
    requires Sound(w) && w.life.Some?
    ensures Sound(Next(w, HandleCancelAll(id)))
  {
    assert forall s :: At(Next(w, HandleCancelAll(id)).records, s) == At(w.records, s);
  }

  lemma {:induction false} RunKeepsSound(events: seq<Event>)
    ensures Sound(Run(events))
  {
    hide Next;
    if events != [] {
      RunKeepsSound(events[..|events| - 1]);
      StepKeepsSound(Run(events[..|events| - 1]), events[|events| - 1]);
    }
  }

  /** Identity safety: over any run with crashes and redeliveries no two published signals share a
      strategy and a seq, so with colon-free symbols no two share a signal id, and no order is sent
      to the venue twice. */
  lemma NeverTwice(events: seq<Event>)
    ensures var w := Run(events);
      && SeqsDiffer(w.sent)
      && (forall i, j :: 0 <= i < j < |w.sent| && COLON !in w.sent[i].symbol && COLON !in w.sent[j].symbol ==>
            Render(w.sent[i]) != Render(w.sent[j]))
      && (forall i, j :: 0 <= i < j < |w.placed| ==> w.placed[i] != w.placed[j])
      && (forall id :: id in w.placed ==> id in w.rows)
  {
    hide Render, Run;
    RunKeepsSound(events);
    var w := Run(events);
    forall i, j | 0 <= i < j < |w.sent| && COLON !in w.sent[i].symbol && COLON !in w.sent[j].symbol
      ensures Render(w.sent[i]) != Render(w.sent[j])
    {
      if Render(w.sent[i]) == Render(w.sent[j]) {
        RenderIsInjective(w.sent[i], w.sent[j]);
      }
    }
  }

  // The handling that gives an order its row: its signal's first.
  ghost predicate FirstHandled(events: seq<Event>, i: nat, id: SignalId, approved: bool)
    requires i < |events|
  {
    var w := Run(events[..i]);
    events[i] == HandlePlace(id, approved) && w.life.Some? && id in w.sent && id !in w.rows
  }

  // Every order waiting for its send, or sent, was approved when its signal was first handled.
  ghost predicate Approved(events: seq<Event>) {
    var w := Run(events);
    forall id :: id in w.placed || (w.life.Some? && id in w.life.value.placing) ==>
      exists i :: 0 <= i < |events| && FirstHandled(events, i, id, true)
  }

  lemma HandledStays(events: seq<Event>, ev: Event, i: nat, id: SignalId, approved: bool)
    requires i < |events| && FirstHandled(events, i, id, approved)
    ensures FirstHandled(events + [ev], i, id, approved)
  {
    assert (events + [ev])[..i] == events[..i];
  }

  lemma {:induction false} RowsStay(events: seq<Event>, n: nat)
    requires n <= |events|
    ensures forall id :: id in Run(events[..n]).rows ==> id in Run(events).rows
  {
    if n < |events| {
      RowsStay(events[..|events| - 1], n);
      assert events[..|events| - 1][..n] == events[..n];
    } else {
      assert events[..n] == events;
    }
  }

  /** No order reaches the venue that the guard did not approve: whatever is sent was approved when its
      signal was first handled. */
  lemma {:induction false} OnlyApprovedSent(events: seq<Event>)
    ensures Approved(events)
  {
    hide FirstHandled;
    if events != [] {
      var init, ev := events[..|events| - 1], events[|events| - 1];
      OnlyApprovedSent(init);
      var w, next := Run(init), Run(events);
      assert events == init + [ev];
      forall id | id in next.placed || (next.life.Some? && id in next.life.value.placing)
        ensures exists i :: 0 <= i < |events| && FirstHandled(events, i, id, true)
      {
        if id in w.placed || (w.life.Some? && id in w.life.value.placing) {
          var i :| 0 <= i < |init| && FirstHandled(init, i, id, true);
          HandledStays(init, ev, i, id, true);
        } else {
          HandledNow(init, ev, id);
        }
      }
    }
  }

  lemma HandledNow(init: seq<Event>, ev: Event, id: SignalId)
    requires var w, next := Run(init), Next(Run(init), ev);
      && id !in w.placed && (w.life.Some? ==> id !in w.life.value.placing)
      && (id in next.placed || (next.life.Some? && id in next.life.value.placing))
    ensures FirstHandled(init + [ev], |init|, id, true)
  {
    assert (init + [ev])[..|init|] == init;
  }

  /** A denial is final: once the first handling of a signal denied it, no redelivery of it, before or
      behind a crash, ever reaches the venue. */
  lemma DeniedNeverSent(events: seq<Event>, i: nat, id: SignalId)
    requires i < |events| && FirstHandled(events, i, id, false)
    ensures id !in Run(events).placed
  {
    OnlyApprovedSent(events);
    if id in Run(events).placed {
      var j :| 0 <= j < |events| && FirstHandled(events, j, id, true);
      if i < j {
        HandledHasRow(events, i, j, id, false);
      } else {
        HandledHasRow(events, j, i, id, true);
      }
    }
  }

  lemma HandledHasRow(events: seq<Event>, i: nat, j: nat, id: SignalId, approved: bool)
    requires i < j < |events| && FirstHandled(events, i, id, approved)
    ensures id in Run(events[..j]).rows
  {
    var prefix := events[..j];
    assert prefix[..i + 1][..i] == events[..i];
    assert id in Run(prefix[..i + 1]).rows;
    RowsStay(prefix, i + 1);
  }

  /** And nothing but a crash or a denial keeps a signal from it: recorded, published, approved and sent
      in one life, it reaches the venue under the seq behind the strategy's last. */
  lemma ApprovedReaches(events: seq<Event>, strategy: string, symbol: Symbol)
    requires Run(events).life.Some?
    ensures var w := Run(events);
      var id := SignalId(strategy, symbol, At(w.life.value.used, strategy) + 1);
      var after := Next(Next(Next(Next(w, Record(strategy, symbol)), Publish(id)), HandlePlace(id, true)), Send(id));
      after.sent == w.sent + [id] && after.placed == w.placed + [id]
  {
    RunKeepsSound(events);
    var w := Run(events);
    var id := SignalId(strategy, symbol, At(w.life.value.used, strategy) + 1);
    assert At(w.records, strategy) <= At(w.life.value.used, strategy);
    assert id !in w.sent;
  }

  // A single cancel marks an order once, with its own seq; it and a cancel all count toward the fold.
  lemma CancelMarks(events: seq<Event>, id: SignalId, target: SignalId)
    requires Run(events).life.Some? && id in Run(events).sent
    ensures var w := Run(events); var after := Next(w, HandleCancel(id, target));
      && (target in w.rows && w.rows[target].None? ==> after.rows == w.rows[target := Some(id.seqNo)])
      && (target !in w.rows || w.rows[target].Some? ==> after == w)
    ensures At(Next(Run(events), HandleCancelAll(id)).records, id.strategy) >= id.seqNo
  {}

  // The rows the fold reads are the store's, so what `SeqHighWater` computes is what a start needs.
  lemma HighWaterRecovers(w: World, high: map<string, nat>, rows: seq<Row>)
    requires forall s :: IsHighWater(At(high, s), w.records, rows, s)
    requires forall id :: id in w.rows ==> Row(id.strategy, id.seqNo, w.rows[id]) in rows
    ensures Recovers(high, w)
    ensures forall s :: At(w.records, s) <= At(high, s)
    ensures forall id :: id in w.rows ==>
      id.seqNo <= At(high, id.strategy) && (w.rows[id].Some? ==> w.rows[id].value <= At(high, id.strategy))
  {
    forall id | id in w.rows ensures id.seqNo <= At(high, id.strategy) && w.rows[id].GetOr(0) <= At(high, id.strategy) {
      var row := Row(id.strategy, id.seqNo, w.rows[id]);
      var i :| 0 <= i < |rows| && rows[i] == row;
      assert IsHighWater(At(high, id.strategy), w.records, rows, id.strategy);
      assert RowSeq(rows[i]) <= At(high, id.strategy);
    }
  }

  // Without the record an id can be handed out twice: a signal sent and unhandled at a crash has no
  // row, so nothing but its record raises the mark. With it the next id is past every one sent.
  lemma RecordedBeforeSent(events: seq<Event>, strategy: string, symbol: Symbol)
    requires Run(events).life.Some?
    ensures var w := Run(events); var after := Next(w, Record(strategy, symbol));
      forall id :: id in after.life.value.recorded - w.life.value.recorded ==>
        && id.seqNo <= At(after.records, strategy)
        && forall other :: other in w.sent && other.strategy == strategy ==> other.seqNo < id.seqNo
  {
    RunKeepsSound(events);
  }
}
