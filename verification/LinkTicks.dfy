/** Every tick of a writer is whole: whatever happens around it, it visits each entry that it found exactly once. */
module LinkTicks {
  import opened Retransmission
  import opened Reliability
  import opened LinkInvariants

  predicate Goes(cfg: Config, l: Link, ev: LinkEvent, m: Link)
    requires cfg.Valid()
  {
    Enabled(l, ev) && m == Step(cfg, l, ev)
  }

  /** A tick: from the moment when the timer fires to the end of the loop, with whatever steps of the reader, the
      client, the statistics and the network in between. */
  ghost predicate IsTick(cfg: Config, states: seq<Link>, events: seq<LinkEvent>)
    requires cfg.Valid()
  {
    && |states| == |events| + 1 && 2 <= |events|
    && (forall t :: 0 <= t < |events| ==> Goes(cfg, states[t], events[t], states[t + 1]))
    && (forall t :: 0 <= t < |events| ==> (events[t].TickStart? <==> t == 0) && (events[t].TickEnd? <==> t == |events| - 1))
  }

  /** The keys that were visited, in order. */
  function Visited(events: seq<LinkEvent>): seq<nat> {
    if events == [] then []
    else
      var n := |events| - 1;
      Visited(events[..n]) + if events[n].TickVisit? then [events[n].k] else []
  }

  /** In the middle of a tick that started with the books b. */
  ghost predicate MidTick(cfg: Config, b: Books, l: Link, order: seq<nat>)
    requires cfg.Valid()
  {
    && (l.writer.Sweeping? || l.writer.SweepCounting?)
    && l.writer.todo <= b.table.Keys && l.writer.todo <= l.books.table.Keys
    && IsOrder(order, b.table.Keys - l.writer.todo)
    && l.books == SweepBooks(cfg, b, order)
  }

  lemma VisitKeepsMidTick(cfg: Config, b: Books, l: Link, k: nat, order: seq<nat>)
    requires cfg.Valid() && MidTick(cfg, b, l, order) && Enabled(l, TickVisit(k))
    ensures MidTick(cfg, b, Step(cfg, l, TickVisit(k)), order + [k])
  {
    StepOnBooks(cfg, l, TickVisit(k));
    StepOnTodo(cfg, l, TickVisit(k));
    OneMoreVisited(cfg, b, order, k, b.table.Keys, l.writer.todo);
    assert VisitBooks(cfg, l.books, k).table.Keys == l.books.table.Keys - if Drops(l.books.table[k]) then {k} else {};
    hide SweepBooks, IsOrder, Drops, Resends, Aged;
  }

  lemma OthersKeepMidTick(cfg: Config, b: Books, l: Link, ev: LinkEvent, order: seq<nat>)
    requires cfg.Valid() && MidTick(cfg, b, l, order) && Enabled(l, ev) && !ev.TickVisit? && !ev.TickEnd?
    ensures MidTick(cfg, b, Step(cfg, l, ev), order)
  {
    StepOnBooks(cfg, l, ev);
    hide SweepBooks, IsOrder, AckOf, Answers;
  }

  lemma StartsMidTick(cfg: Config, l: Link)
    requires cfg.Valid() && Enabled(l, TickStart)
    ensures MidTick(cfg, l.books, Step(cfg, l, TickStart), [])
  {
  }

  lemma {:induction false} TickSoFar(cfg: Config, states: seq<Link>, events: seq<LinkEvent>, t: nat)
    requires cfg.Valid() && IsTick(cfg, states, events) && 1 <= t < |events|
    ensures MidTick(cfg, states[0].books, states[t], Visited(events[..t]))
  {
    assert Goes(cfg, states[t - 1], events[t - 1], states[t]);
    LastVisited(events, t);
    hide MidTick, Step, Enabled, Visited;
    if t == 1 {
      StartsMidTick(cfg, states[0]);
    } else {
      TickSoFar(cfg, states, events, t - 1);
      MidTickGoesOn(cfg, states[0].books, states[t - 1], events[t - 1], Visited(events[..t - 1]));
    }
  }

  lemma LastVisited(events: seq<LinkEvent>, t: nat)
    requires 1 <= t <= |events|
    ensures Visited(events[..t]) == Visited(events[..t - 1]) + if events[t - 1].TickVisit? then [events[t - 1].k] else []
    ensures !events[t - 1].TickVisit? ==> Visited(events[..t]) == Visited(events[..t - 1])
    ensures t == 1 ==> Visited(events[..t - 1]) == []
  {
    assert events[..t][..t - 1] == events[..t - 1];
  }

  lemma MidTickGoesOn(cfg: Config, b: Books, l: Link, ev: LinkEvent, order: seq<nat>)
    requires cfg.Valid() && MidTick(cfg, b, l, order) && Enabled(l, ev) && !ev.TickEnd?
    ensures MidTick(cfg, b, Step(cfg, l, ev), if ev.TickVisit? then order + [ev.k] else order)
  {
    hide *;
    if ev.TickVisit? {
      VisitKeepsMidTick(cfg, b, l, ev.k, order);
    } else {
      OthersKeepMidTick(cfg, b, l, ev, order);
    }
  }

  lemma {:induction false} SweptSoFar(cfg: Config, b: Books, order: seq<nat>, keys: set<nat>)
    requires cfg.Valid() && IsOrder(order, keys) && keys <= b.table.Keys
    ensures forall j: nat :: SweptEntry(cfg, b.table, SweepBooks(cfg, b, order).table, order, j)
    decreases |order|
  {
    if order != [] {
      var front, k := order[..|order| - 1], order[|order| - 1];
      assert order == front + [k];
      assert IsOrder(front, keys - {k});
      SweptSoFar(cfg, b, front, keys - {k});
      var before := SweepBooks(cfg, b, front);
      SweepNext(cfg, b.table, before.table, front, k);
      SweepLast(cfg, b, order);
      VisitIsVisit(cfg, before, k);
      hide SweptEntry, SweepBooks, VisitBooks, Visit;
    }
  }

  /** However the other goroutines, the client and the network interleave with it, a tick visits every entry that it
      found exactly once, and leaves the table of `TickTable`: nothing is taken or acknowledged in between. */
  lemma TickIsWhole(cfg: Config, states: seq<Link>, events: seq<LinkEvent>)
    requires cfg.Valid() && IsTick(cfg, states, events)
    ensures IsOrder(Visited(events), states[0].books.table.Keys)
    ensures states[|events|].books == SweepBooks(cfg, states[0].books, Visited(events))
    ensures states[|events|].books.table == TickTable(cfg, states[0].books.table)
    ensures states[|events|].writer == AtSelect
  {
    var n := |events| - 1;
    var b := states[0].books;
    TickSoFar(cfg, states, events, n);
    assert Goes(cfg, states[n], events[n], states[n + 1]);
    LastVisited(events, n + 1);
    assert events[..n + 1] == events;
    EndsTick(cfg, b, states[n], Visited(events));
  }

  lemma EndsTick(cfg: Config, b: Books, l: Link, order: seq<nat>)
    requires cfg.Valid() && MidTick(cfg, b, l, order) && Enabled(l, TickEnd)
    ensures IsOrder(order, b.table.Keys) && Step(cfg, l, TickEnd).books == SweepBooks(cfg, b, order)
    ensures Step(cfg, l, TickEnd).books.table == TickTable(cfg, b.table) && Step(cfg, l, TickEnd).writer == AtSelect
  {
    assert b.table.Keys - {} == b.table.Keys;
    SweptSoFar(cfg, b, order, b.table.Keys);
    SweepDone(cfg, b.table, SweepBooks(cfg, b, order).table, order);
    hide SweepBooks, TickTable, SweptEntry;
  }
}
