// Funding boundaries, and each applied once however its deliveries are replayed.

module Funding {
  import opened Arith
  import opened Domain

  // Every epoch-aligned boundary in the half-open span (after, through].
  function Boundaries(after: int, through: int, interval: int): seq<int>
    requires interval > 0
  {
    var first, last := after / interval + 1, through / interval;
    seq(if last < first then 0 else last - first + 1, i => (first + i) * interval)
  }

  lemma Aligned(b: int, interval: int)
    requires interval > 0 && b % interval == 0
    ensures b == (b / interval) * interval
  {}

  lemma MultipleIn(index: int, after: int, through: int, interval: int)
    requires interval > 0
    ensures after < index * interval <= through <==> after / interval + 1 <= index <= through / interval
  {
    DivMod(after, interval);
    DivMod(through, interval);
    DivExact(index, interval);
    if index <= after / interval {
      MulMono(index, after / interval, interval);
    } else {
      MulStrict(after / interval, index, interval);
    }
    if index <= through / interval {
      MulMono(index, through / interval, interval);
    } else {
      MulStrict(through / interval, index, interval);
    }
  }

  /** Ascending and complete: exactly the multiples of the interval after one instant and up to the
      other, negative instants included. */
  lemma BoundariesExact(after: int, through: int, interval: int)
    requires interval > 0
    ensures var r := Boundaries(after, through, interval);
      && (forall i, j :: 0 <= i < j < |r| ==> r[i] < r[j])
      && forall b :: b in r <==> after < b <= through && b % interval == 0
  {
    var r := Boundaries(after, through, interval);
    var first := after / interval + 1;
    forall i, j | 0 <= i < j < |r| ensures r[i] < r[j] {
      MulStrict(first + i, first + j, interval);
    }
    forall b ensures b in r <==> after < b <= through && b % interval == 0 {
      if b in r {
        var i :| 0 <= i < |r| && r[i] == b;
        MultipleIn(first + i, after, through, interval);
        DivExact(first + i, interval);
      }
      if after < b <= through && b % interval == 0 {
        Aligned(b, interval);
        MultipleIn(b / interval, after, through, interval);
        assert r[b / interval - first] == b;
      }
    }
  }

  /** Consecutive spans tile: no boundary is lost between them and none is settled twice. */
  lemma BoundariesTile(a: int, b: int, c: int, interval: int)
    requires interval > 0 && a <= b <= c
    ensures Boundaries(a, b, interval) + Boundaries(b, c, interval) == Boundaries(a, c, interval)
  {
    DivMono(a, b, interval);
    DivMono(b, c, interval);
  }

  // ----- Exactly once -----

  // A symbol's durable watermark and the boundaries that moved its cash, in order.
  datatype Gate = Gate(mark: Option<int>, booked: seq<int>)

  // The gate `apply_funding` reads before it splits anything.
  function Deliver(g: Gate, genesis: int, boundary: int): Gate {
    if boundary <= genesis || (g.mark.Some? && boundary <= g.mark.value) then g
    else Gate(Some(boundary), g.booked + [boundary])
  }

  function DeliverAll(g: Gate, genesis: int, bs: seq<int>): Gate {
    if bs == [] then g else Deliver(DeliverAll(g, genesis, bs[..|bs| - 1]), genesis, bs[|bs| - 1])
  }

  // One life of the process: deliveries from `due[start]` on, in order. Where a crash cut the last
  // one off before its write, `lands` is false and it left no trace.
  datatype Life = Life(start: nat, count: nat, lands: bool)

  function Reach(life: Life): nat {
    if life.lands || life.count == 0 then life.start + life.count else life.start + life.count - 1
  }

  // How far any life got.
  function Furthest(lives: seq<Life>): nat {
    if lives == [] then 0 else
      var before, reach := Furthest(lives[..|lives| - 1]), Reach(lives[|lives| - 1]);
      if before < reach then reach else before
  }

  // Every life starts no later than where the lives before it got to.
  predicate Resumes(lives: seq<Life>, n: nat) {
    lives == [] || (
      var life := lives[|lives| - 1];
      && Resumes(lives[..|lives| - 1], n)
      && life.start <= Furthest(lives[..|lives| - 1]) && life.start + life.count <= n)
  }

  // What the lives deliver, end to end.
  function Delivered(due: seq<int>, lives: seq<Life>): seq<int>
    requires Resumes(lives, |due|)
  {
    if lives == [] then [] else
      var life := lives[|lives| - 1];
      Delivered(due, lives[..|lives| - 1]) + due[life.start..Reach(life)]
  }

  function AfterGenesis(genesis: int, due: seq<int>): seq<int> {
    if due == [] then [] else
      var rest, last := AfterGenesis(genesis, due[..|due| - 1]), due[|due| - 1];
      if last > genesis then rest + [last] else rest
  }

  predicate Ascending(due: seq<int>) {
    forall i, j :: 0 <= i < j < |due| ==> due[i] < due[j]
  }

  // The gate once exactly `due[..n]` has gone through it.
  ghost predicate Through(g: Gate, genesis: int, due: seq<int>, n: nat)
    requires n <= |due|
  {
    && g.booked == AfterGenesis(genesis, due[..n])
    && (forall i :: 0 <= i < n && due[i] > genesis ==> g.mark.Some? && due[i] <= g.mark.value)
    && (g.mark.Some? ==> exists i :: 0 <= i < n && due[i] == g.mark.value)
  }

  lemma DeliverNext(g: Gate, genesis: int, due: seq<int>, n: nat, i: nat)
    requires Ascending(due) && n <= |due| && i <= n && i < |due| && Through(g, genesis, due, n)
    ensures var m := if i < n then n else n + 1; Through(Deliver(g, genesis, due[i]), genesis, due, m)
  {
    if i == n {
      assert due[..n + 1][..n] == due[..n];
      var next := Deliver(g, genesis, due[i]);
      if next.mark.Some? && next != g {
        assert due[n] == next.mark.value;
      }
    }
  }

  lemma {:induction false} AfterGenesisReads(genesis: int, due: seq<int>)
    requires Ascending(due)
    ensures Ascending(AfterGenesis(genesis, due))
    ensures forall b :: b in AfterGenesis(genesis, due) <==> b in due && b > genesis
  {
    if due != [] {
      var rest := AfterGenesis(genesis, due[..|due| - 1]);
      AfterGenesisReads(genesis, due[..|due| - 1]);
      forall i | 0 <= i < |rest| ensures rest[i] < due[|due| - 1] {
        assert rest[i] in rest;
        assert rest[i] in due[..|due| - 1];
      }
      assert due == due[..|due| - 1] + [due[|due| - 1]];
    }
  }

  // ----- Deliveries in any order -----

  // The first delivery of a boundary comes ahead of every later boundary.
  predicate InTime(bs: seq<int>, b: int) {
    exists j :: 0 <= j < |bs| && bs[j] == b && forall i :: 0 <= i < j ==> bs[i] < b
  }

  // The gate's mark is the latest boundary past genesis it was handed.
  ghost predicate MarksLatest(g: Gate, genesis: int, bs: seq<int>) {
    && (forall i :: 0 <= i < |bs| && bs[i] > genesis ==> g.mark.Some? && bs[i] <= g.mark.value)
    && (g.mark.Some? ==> g.mark.value in bs && g.mark.value > genesis)
  }

  lemma InTimeStep(bs: seq<int>, last: int, b: int)
    ensures InTime(bs + [last], b) <==> InTime(bs, b) || (b == last && forall i :: 0 <= i < |bs| ==> bs[i] < last)
  {
    var next := bs + [last];
    if InTime(bs, b) {
      var j :| 0 <= j < |bs| && bs[j] == b && forall i :: 0 <= i < j ==> bs[i] < b;
      assert next[j] == b && forall i :: 0 <= i < j ==> next[i] == bs[i];
    }
    if b == last && forall i :: 0 <= i < |bs| ==> bs[i] < last {
      assert next[|bs|] == b && forall i :: 0 <= i < |bs| ==> next[i] == bs[i];
    }
    if InTime(next, b) {
      var j :| 0 <= j < |next| && next[j] == b && forall i :: 0 <= i < j ==> next[i] < b;
      assert forall i :: 0 <= i < |bs| ==> bs[i] == next[i];
    }
  }

  /** Deliveries in any order and any multiplicity: a boundary past genesis moves cash exactly where
      its first delivery came ahead of every later boundary, and never twice. */
  lemma {:induction false} BookedIffInTime(genesis: int, bs: seq<int>)
    ensures var g := DeliverAll(Gate(None, []), genesis, bs);
      && MarksLatest(g, genesis, bs) && Ascending(g.booked)
      && (forall b :: b in g.booked <==> b > genesis && InTime(bs, b))
      && (forall b :: b in g.booked ==> g.mark.Some? && b <= g.mark.value)
  {
    if bs != [] {
      var init, last := bs[..|bs| - 1], bs[|bs| - 1];
      BookedIffInTime(genesis, init);
      var g := DeliverAll(Gate(None, []), genesis, init);
      assert bs == init + [last];
      forall b
        ensures InTime(bs, b) <==>
          InTime(init, b) || (b == last && forall i :: 0 <= i < |init| ==> init[i] < last)
      {
        InTimeStep(init, last, b);
      }
      if last > genesis && !(g.mark.Some? && last <= g.mark.value) {
        forall i | 0 <= i < |g.booked| ensures g.booked[i] < last {
          assert g.booked[i] in g.booked;
        }
      }
    }
  }

  // Each boundary past genesis, when first delivered, is later than every delivery before it.
  predicate FirstsAscend(genesis: int, bs: seq<int>) {
    forall i, j :: 0 <= i < j < |bs| && bs[j] > genesis && bs[j] !in bs[..j] ==> bs[i] < bs[j]
  }

  /** Nothing is lost if and only if first deliveries ascend. */
  lemma NothingLostIff(genesis: int, bs: seq<int>)
    ensures (forall b :: b in bs && b > genesis ==> b in DeliverAll(Gate(None, []), genesis, bs).booked) <==>
      FirstsAscend(genesis, bs)
  {
    BookedIffInTime(genesis, bs);
    if FirstsAscend(genesis, bs) {
      forall b | b in bs && b > genesis ensures InTime(bs, b) {
        var j := FirstOf(bs, b);
        assert bs[j] == b && forall i :: 0 <= i < j ==> bs[i] < b;
      }
    } else {
      var i, j :| 0 <= i < j < |bs| && bs[j] > genesis && bs[j] !in bs[..j] && bs[i] >= bs[j];
      assert bs[j] in bs;
    }
  }

  lemma {:induction false} FirstOf(bs: seq<int>, b: int) returns (j: nat)
    requires b in bs
    ensures j < |bs| && bs[j] == b && b !in bs[..j]
  {
    var n := |bs| - 1;
    if b in bs[..n] {
      j := FirstOf(bs[..n], b);
      assert bs[..n][..j] == bs[..j];
    } else {
      j := n;
    }
  }

  // ----- Deliveries that resume a schedule -----

  predicate AllDelivered(due: seq<int>, bs: seq<int>) {
    forall k :: 0 <= k < |due| ==> due[k] in bs
  }

  // Each delivery is a scheduled boundary whose predecessors were all delivered before it.
  predicate Resumed(due: seq<int>, bs: seq<int>) {
    forall j :: 0 <= j < |bs| ==> exists i :: 0 <= i < |due| && due[i] == bs[j] && AllDelivered(due[..i], bs[..j])
  }

  // `bs` delivered exactly the first `n` of the schedule.
  ghost predicate Covers(due: seq<int>, n: nat, bs: seq<int>)
    requires n <= |due|
  {
    forall b :: b in bs <==> b in due[..n]
  }

  lemma CoversNext(due: seq<int>, n: nat, bs: seq<int>, i: nat)
    requires Ascending(due) && n <= |due| && i < |due| && Covers(due, n, bs) && AllDelivered(due[..i], bs)
    ensures i <= n && Covers(due, if i < n then n else n + 1, bs + [due[i]])
  {
    if i > 0 {
      assert due[..i][i - 1] in bs;
      assert due[i - 1] in due[..n];
    }
    if i < n {
      assert due[..n][i] == due[i];
    } else {
      assert due[..n + 1] == due[..n] + [due[n]];
    }
  }

  lemma {:induction false} ResumedThrough(genesis: int, due: seq<int>, bs: seq<int>) returns (n: nat)
    requires Ascending(due) && Resumed(due, bs)
    ensures n <= |due| && Through(DeliverAll(Gate(None, []), genesis, bs), genesis, due, n) && Covers(due, n, bs)
  {
    hide Through, Covers;
    if bs == [] {
      n := 0;
      NothingThrough(genesis, due);
    } else {
      var init := bs[..|bs| - 1];
      assert Resumed(due, init) by {
        assert forall j :: 0 <= j < |init| ==> bs[j] == init[j] && bs[..j] == init[..j];
      }
      n := ResumedThrough(genesis, due, init);
      var i :| 0 <= i < |due| && due[i] == bs[|bs| - 1] && AllDelivered(due[..i], init);
      CoversNext(due, n, init, i);
      DeliverNext(DeliverAll(Gate(None, []), genesis, init), genesis, due, n, i);
      assert bs == init + [due[i]];
      n := if i < n then n else n + 1;
    }
  }

  lemma NothingThrough(genesis: int, due: seq<int>)
    ensures Through(Gate(None, []), genesis, due, 0) && Covers(due, 0, []) && Resumed(due, [])
  {}

  // A life takes up the schedule where it starts, and covers it as far as it gets.
  lemma {:induction false} LifeResumes(due: seq<int>, n: nat, bs: seq<int>, start: nat, end: nat)
    requires Ascending(due) && start <= n <= |due| && start <= end <= |due| && Resumed(due, bs) && Covers(due, n, bs)
    ensures Resumed(due, bs + due[start..end]) && Covers(due, if n < end then end else n, bs + due[start..end])
    decreases end - start
  {
    hide Resumed, Covers, AllDelivered;
    if start == end {
      assert bs + due[start..end] == bs;
    } else {
      var before := bs + due[start..end - 1];
      LifeResumes(due, n, bs, start, end - 1);
      assert bs + due[start..end] == before + [due[end - 1]];
      OneMore(due, if n < end - 1 then end - 1 else n, before, end - 1);
    }
  }

  lemma OneMore(due: seq<int>, n: nat, bs: seq<int>, i: nat)
    requires Ascending(due) && i < |due| && i <= n <= |due| && Resumed(due, bs) && Covers(due, n, bs)
    ensures Resumed(due, bs + [due[i]]) && Covers(due, if i < n then n else n + 1, bs + [due[i]])
  {
    assert AllDelivered(due[..i], bs) by {
      assert forall k :: 0 <= k < i ==> due[..i][k] == due[..n][k];
    }
    CoversNext(due, n, bs, i);
    var next := bs + [due[i]];
    forall j | 0 <= j < |next|
      ensures exists k :: 0 <= k < |due| && due[k] == next[j] && AllDelivered(due[..k], next[..j])
    {
      if j < |bs| {
        assert next[j] == bs[j] && next[..j] == bs[..j];
      } else {
        assert next[..j] == bs;
      }
    }
  }

  lemma {:induction false} LivesResume(due: seq<int>, lives: seq<Life>)
    requires Ascending(due) && Resumes(lives, |due|)
    ensures Furthest(lives) <= |due|
    ensures Resumed(due, Delivered(due, lives)) && Covers(due, Furthest(lives), Delivered(due, lives))
  {
    hide Resumed, Covers;
    if lives == [] {
      NothingThrough(0, due);
    } else {
      var init, life := lives[..|lives| - 1], lives[|lives| - 1];
      LivesResume(due, init);
      LifeResumes(due, Furthest(init), Delivered(due, init), life.start, Reach(life));
    }
  }

  lemma InPrefix(due: seq<int>, k: nat, n: nat)
    requires Ascending(due) && k < |due| && n <= |due|
    ensures due[k] in due[..n] <==> k < n
  {
    if k < n {
      assert due[..n][k] == due[k];
    }
  }

  lemma CoversOnce(due: seq<int>, m: nat, n: nat, bs: seq<int>)
    requires Ascending(due) && m <= n <= |due| && Covers(due, m, bs) && Covers(due, n, bs)
    ensures m == n
  {
    if m < |due| {
      InPrefix(due, m, m);
      InPrefix(due, m, n);
    }
  }

  /** Funding exactly once: however a run of ascending deliveries is cut by crashes and replayed from
      any earlier point, the boundaries that move cash are those after genesis, each once, in order,
      up to the furthest any life got. */
  lemma FundingOnce(genesis: int, due: seq<int>, lives: seq<Life>)
    requires Ascending(due) && Resumes(lives, |due|)
    ensures Furthest(lives) <= |due|
    ensures var booked := DeliverAll(Gate(None, []), genesis, Delivered(due, lives)).booked;
      && booked == AfterGenesis(genesis, due[..Furthest(lives)])
      && Ascending(booked)
      && forall b :: b in booked <==> b in due[..Furthest(lives)] && b > genesis
  {
    LivesResume(due, lives);
    var bs := Delivered(due, lives);
    var n := ResumedThrough(genesis, due, bs);
    if n <= Furthest(lives) {
      CoversOnce(due, n, Furthest(lives), bs);
    } else {
      CoversOnce(due, Furthest(lives), n, bs);
    }
    AfterGenesisReads(genesis, due[..Furthest(lives)]);
  }

  // A boundary delivered behind a later one is dropped for good.
  lemma LateBoundaryIsLost()
    ensures DeliverAll(Gate(None, []), 0, [2, 1]).booked == [2]
  {
    var bs := [2, 1];
    assert bs[..1] == [2] && bs[..1][..0] == [];
    assert DeliverAll(Gate(None, []), 0, bs[..1]) == Gate(Some(2), [2]);
  }
}
