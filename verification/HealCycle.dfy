// One reconcile cycle over the engine's own ledger: classify, remember, heal in one transaction.

module HealCycle {
  import opened Domain
  import opened Ledger
  import opened Recovery
  import opened Projection
  import opened Heal

  // A plan's fills move distinct partitions, each by a real gap.
  lemma PlanFits(c: Cycle, v: Venue, moved: set<Symbol>)
    requires v.quantum > 0.0
    ensures var fills := HealFills(PassPlan(c, v, moved).heals, v);
      HealsSizes(fills)
  {
    hide SizeFindings, AccountNet, Diverged, CashFound, Judged;
    var sizes, x := SizeFindings(c.book.ledger, v), Context(Prices(v), moved, c.previous);
    var heals := Judged(sizes, x, Heals);
    FindingsRead(c.book.ledger, v);
    DivergedReads(c.book.ledger, v);
    JudgedDistinct(sizes, x, Heals);
    JudgedReads(sizes, x, Heals);
    forall i | 0 <= i < |heals| ensures heals[i].venue != heals[i].ledger {
      assert heals[i] in heals;
    }
  }

  // What a cycle writes: its size fills, and the net cash it corrects to.
  ghost function HealsOf(c: Cycle, v: Venue, moved: set<Symbol>): seq<Fill>
    requires v.quantum > 0.0
  {
    HealFills(PassPlan(c, v, moved).heals, v)
  }

  ghost function CorrectsTo(c: Cycle, v: Venue, moved: set<Symbol>, verified: bool): Option<real>
    requires v.quantum > 0.0
  {
    if verified then PassPlan(c, v, moved).cash else None
  }

  // The store behind a landed cycle. A cycle with nothing to heal writes nothing.
  ghost function Stored(d: Durable, c: Cycle, v: Venue, now: int, moved: set<Symbol>, verified: bool): Durable
    requires v.quantum > 0.0
  {
    var fills := HealsOf(c, v, moved);
    if fills == [] && CorrectsTo(c, v, moved, verified).None? then d else
      d.(ledger := WriteRows(d.ledger, Pass(c, v, now, moved, verified).book.ledger, KeysOf(fills)))
  }

  // A pass is one heal of the book and one memory for the next.
  lemma PassReads(c: Cycle, v: Venue, now: int, moved: set<Symbol>, verified: bool)
    requires v.quantum > 0.0
    ensures var fills, netCash := HealsOf(c, v, moved), CorrectsTo(c, v, moved, verified);
      && Pass(c, v, now, moved, verified)
         == Cycle(HealedBook(c.book, OfHeal(now), fills, netCash), PassPlan(c, v, moved).seen)
      && (fills == [] && netCash.None? ==>
        Pass(c, v, now, moved, verified) == Cycle(c.book, PassPlan(c, v, moved).seen))
  {
    hide PassPlan, HealFills;
    NothingTaken(c.book, OfHeal(now));
  }

  /** A cycle is a step of the machine: its fold, then its write, leave the book `Pass` leaves and the
      store `Stored`. */
  lemma PassIsAStep(config: Config, e: Engine, c: Cycle, v: Venue, now: int, moved: set<Symbol>, verified: bool)
    requires config.step > 0.0 && v.quantum > 0.0
    requires e.memory.Some? && e.memory.value.pending.None? && e.memory.value.book == c.book && !HealIn(e.log, now)
    ensures var folded := Next(config, e, HealFolded(now, HealsOf(c, v, moved), CorrectsTo(c, v, moved, verified)));
      var next := Next(config, folded, Written);
      && next.memory == Some(e.memory.value.(book := Pass(c, v, now, moved, verified).book))
      && next.durable == Stored(e.durable, c, v, now, moved, verified)
  {
    hide Pass, HealFills, PassPlan, HealedBook, WriteRows, KeysOf;
    PlanFits(c, v, moved);
    PassReads(c, v, now, moved, verified);
    assert HealsSizes(HealsOf(c, v, moved));
  }

  // A store that held the ledger before a landed cycle holds it after.
  lemma StoredIsTheLedger(d: Durable, c: Cycle, v: Venue, now: int, moved: set<Symbol>, verified: bool)
    requires v.quantum > 0.0 && d.ledger == c.book.ledger && c.book.ledger.positions.Keys == c.book.seen.Keys
    ensures Stored(d, c, v, now, moved, verified).ledger == Pass(c, v, now, moved, verified).book.ledger
  {
    hide HealFills, PassPlan, TakeAll, KeysOf;
    var fills := HealsOf(c, v, moved);
    PassReads(c, v, now, moved, verified);
    TakeAllElsewhere(c.book, OfHeal(now), fills);
    var taken := TakeAll(c.book, OfHeal(now), fills);
    forall k | k in taken.ledger.positions && k !in KeysOf(fills)
      ensures k in d.ledger.positions && taken.ledger.positions[k] == d.ledger.positions[k]
    {
      assert At(taken.ledger, k) == At(c.book.ledger, k);
    }
    assert WriteRows(d.ledger, taken.ledger, KeysOf(fills)).positions == taken.ledger.positions;
  }

  class LedgerReconciliation {
    const checkpointer: Checkpointer
    var previous: set<Finding>

    constructor (checkpointer: Checkpointer)
      ensures this.checkpointer == checkpointer && previous == {}
    {
      this.checkpointer := checkpointer;
      previous := {};
    }

    /** One cycle. `sizes` and `cash` are the reading's findings against the snapshot, `moved` the
        symbols a fill touched while the venue was read, `verified` the mode guard's answer. Where the
        write lands, the ledger and the memory are what `Pass` says and the store holds that ledger;
        where it does not, the store is as it was. */
    method ReconcileAccount(v: Venue, sizes: seq<SizeFinding>, cash: Option<CashFinding>, now: int, moved: set<Symbol>,
                            verified: bool, accepts: bool) returns (ok: bool)
      requires checkpointer.Valid() && v.quantum > 0.0
      requires sizes == SizeFindings(checkpointer.portfolio.View().ledger, v)
      requires cash == CashFound(checkpointer.portfolio.View().ledger, v)
      modifies this`previous, checkpointer.store, checkpointer.portfolio, checkpointer.portfolio.positions.Values
      ensures !ok ==> !accepts && checkpointer.store.View() == old(checkpointer.store.View())
      ensures ok ==>
        && checkpointer.Valid()
        && Cycle(checkpointer.portfolio.View(), previous)
           == Pass(old(Cycle(checkpointer.portfolio.View(), previous)), v, now, moved, verified)
        && checkpointer.store.View() == Stored(old(checkpointer.store.View()),
             old(Cycle(checkpointer.portfolio.View(), previous)), v, now, moved, verified)
      ensures ok && old(checkpointer.store.View()).ledger == old(checkpointer.portfolio.View()).ledger ==>
        checkpointer.store.View().ledger == checkpointer.portfolio.View().ledger
    {
      hide SizeFindings, CashFound, HealFills, PlanOf, Pass, HealedBook, Stored, KeysOf;
      ghost var c := Cycle(checkpointer.portfolio.View(), previous);
      PassReads(c, v, now, moved, verified);
      ghost var d := checkpointer.store.View();
      if d.ledger == c.book.ledger {
        ViewReads(checkpointer.portfolio);
        StoredIsTheLedger(d, c, v, now, moved, verified);
      }
      var p := Classify(sizes, cash, Context(Prices(v), moved, previous));
      previous := p.seen;
      ok := Land(HealFills(p.heals, v), if verified then p.cash else None, now, accepts, c, v, moved, verified);
    }

    // The plan, in one transaction. A cycle with nothing to heal writes nothing.
    method Land(fills: seq<Fill>, netCash: Option<real>, now: int, accepts: bool,
                ghost c: Cycle, ghost v: Venue, ghost moved: set<Symbol>, ghost verified: bool) returns (ok: bool)
      requires checkpointer.Valid() && v.quantum > 0.0 && c.book == checkpointer.portfolio.View()
      requires fills == HealsOf(c, v, moved) && netCash == CorrectsTo(c, v, moved, verified)
      modifies checkpointer.store, checkpointer.portfolio, checkpointer.portfolio.positions.Values
      ensures !ok ==> !accepts && checkpointer.store.View() == old(checkpointer.store.View())
      ensures ok ==>
        && checkpointer.Valid() && checkpointer.portfolio.View() == Pass(c, v, now, moved, verified).book
        && checkpointer.store.View() == Stored(old(checkpointer.store.View()), c, v, now, moved, verified)
    {
      hide HealFills, PassPlan, Pass, HealedBook, WriteRows, KeysOf;
      PlanFits(c, v, moved);
      PassReads(c, v, now, moved, verified);
      if fills == [] && netCash.None? {
        return true;
      }
      ok := checkpointer.CheckpointHeal(OfHeal(now), fills, netCash, accepts);
    }
  }
}
