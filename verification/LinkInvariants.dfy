/** What every step of the reliable-delivery protocol keeps on one connection. */
module LinkInvariants {
  import opened Codec
  import opened Retransmission
  import opened Sums
  import opened Reliability

  function Todo(w: Writer): set<nat> {
    if w.Sweeping? || w.SweepCounting? then w.todo else {}
  }

  /** The writer's table: sound entries of sent messages; a sweep still has them where it expects them. */
  ghost predicate TableOk(cfg: Config, b: Books, todo: set<nat>)
    requires cfg.Valid()
  {
    && (forall k :: k in b.table ==> k in b.sent && Sound(cfg, b.table[k]))
    && todo <= b.table.Keys
  }

  ghost predicate LinkInv(cfg: Config, l: Link)
    requires cfg.Valid()
  {
    FlowInv(l) && TableOk(cfg, l.books, Todo(l.writer))
  }

  /** What a step does to the books of the writer: only a new message, a visit of the tick loop and an
      acknowledgement change them. */
  lemma StepOnBooks(cfg: Config, l: Link, ev: LinkEvent)
    requires cfg.Valid() && Enabled(l, ev)
    ensures Step(cfg, l, ev).books == match ev
                                      case Take(id, body) => PutBooks(cfg, l.books, id, body)
                                      case TickVisit(k) => VisitBooks(cfg, l.books, k)
                                      case HandAck => AckBooks(l.books, l.reader.id)
                                      case _ => l.books
  {
    hide Answers, AckOf, PutBooks, VisitBooks, AckBooks, Resends;
  }

  lemma StepOnTodo(cfg: Config, l: Link, ev: LinkEvent)
    requires cfg.Valid() && Enabled(l, ev)
    ensures Todo(Step(cfg, l, ev).writer) == match ev
                                             case TickStart => l.books.table.Keys
                                             case TickVisit(k) => Todo(l.writer) - {k}
                                             case _ => Todo(l.writer)
  {
    hide Answers, AckOf, PutBooks, VisitBooks, AckBooks, Resends;
  }

  lemma StepOnReceived(cfg: Config, l: Link, ev: LinkEvent)
    requires cfg.Valid() && Enabled(l, ev)
    ensures l.received <= Step(cfg, l, ev).received
  {
    hide Answers, AckOf, PutBooks, VisitBooks, AckBooks, Resends;
  }

  lemma VisitKeepsTable(cfg: Config, b: Books, k: nat, todo: set<nat>)
    requires cfg.Valid() && TableOk(cfg, b, todo) && k in b.table
    ensures TableOk(cfg, VisitBooks(cfg, b, k), todo - {k})
  {
    AgedIsSound(cfg, b.table[k]);
    hide Sound, Drops, Resends, Aged;
  }

  lemma StepKeepsTable(cfg: Config, l: Link, ev: LinkEvent)
    requires cfg.Valid() && TableOk(cfg, l.books, Todo(l.writer)) && Enabled(l, ev)
    ensures TableOk(cfg, Step(cfg, l, ev).books, Todo(Step(cfg, l, ev).writer))
  {
    StepOnBooks(cfg, l, ev);
    StepOnTodo(cfg, l, ev);
    if ev.Take? {
      FreshIsSound(cfg, ev.body);
      hide Step, Sound, Fresh;
    } else if ev.TickVisit? {
      VisitKeepsTable(cfg, l.books, ev.k, Todo(l.writer));
      hide Step, TableOk, VisitBooks;
    } else {
      hide Step, Sound;
    }
  }

  lemma StepKeepsLink(cfg: Config, l: Link, ev: LinkEvent)
    requires cfg.Valid() && LinkInv(cfg, l) && Enabled(l, ev) && (ev.Take? ==> ev.id < TWO_32)
    ensures LinkInv(cfg, Step(cfg, l, ev))
  {
    hide FlowInv;
    StepKeepsTable(cfg, l, ev);
    StepKeepsFlow(cfg, l, ev);
    hide Step;
  }

  // ---------------------------------------------------------------- conservation on one link

  /** The hypothesis: no message is given to a writer twice. */
  predicate FreshTake(l: Link, ev: LinkEvent) {
    ev.Take? ==> ev.id !in l.books.taken
  }

  /** Every message that the writer took is pending, acknowledged or expired, and only one of these. */
  predicate Partition(b: Books) {
    && b.table.Keys !! b.acked && b.table.Keys !! b.expired && b.acked !! b.expired
    && b.table.Keys + b.acked + b.expired == b.taken
  }

  /** How often a message has been transmitted. */
  predicate TransmissionOk(cfg: Config, b: Books, id: nat)
    requires cfg.Valid()
  {
    && (id in b.sent ==> id in b.taken)
    && (id in b.table ==>
          && b.sent[id] == 1 + cfg.maxRetry - b.table[id].retry
          && (cfg.maxWait < cfg.maxRetry ==> b.table[id].retry == cfg.maxRetry))
    && (id in b.acked ==> 1 <= b.sent[id] <= cfg.maxRetry)
    && (id in b.expired ==> b.sent[id] == if cfg.maxWait < cfg.maxRetry then 1 else cfg.maxRetry)
  }

  ghost predicate Transmissions(cfg: Config, b: Books)
    requires cfg.Valid()
  {
    forall id: nat :: TransmissionOk(cfg, b, id)
  }

  ghost predicate BooksOk(cfg: Config, b: Books)
    requires cfg.Valid()
  {
    Partition(b) && Transmissions(cfg, b)
  }

  /** Acknowledged are exactly the messages whose acknowledgement reached the writer before they expired. */
  predicate HandedOk(l: Link) {
    && (forall id :: id in l.handed ==> id in l.books.acked + l.books.expired)
    && (forall id :: id in l.books.acked ==> id in l.handed)
  }

  ghost predicate Conserved(cfg: Config, l: Link)
    requires cfg.Valid()
  {
    && BooksOk(cfg, l.books) && HandedOk(l)
    && forall id :: id in l.books.acked ==> id in l.received
  }

  /** When an entry is dropped, all its transmissions have been used up, unless there never were any but the first. */
  lemma DroppedWasUsedUp(cfg: Config, e: Entry)
    requires cfg.Valid() && Sound(cfg, e) && Drops(e) && 1 <= cfg.Stride()
    ensures Aged(cfg, e).retry == 1
  {
    var s := cfg.Stride();
    AgedIsSound(cfg, e);
    if Resends(cfg, e) {
      if e.retry >= 3 {
        MulOrder(2, e.retry - 1, s);
      }
    } else if e.retry >= 2 {
      MulOrder(1, e.retry - 1, s);
    }
  }

  lemma NoStrideNoResend(cfg: Config, e: Entry)
    requires cfg.Valid() && Sound(cfg, e) && cfg.Stride() == 0
    ensures !Resends(cfg, e)
  {
    assert (e.retry - 1) * cfg.Stride() == 0;
  }

  /** What a visit does to the retry countdown. */
  lemma VisitOnRetry(cfg: Config, e: Entry)
    requires cfg.Valid() && Sound(cfg, e)
    ensures Aged(cfg, e).retry == e.retry - if Resends(cfg, e) then 1 else 0
    ensures cfg.maxWait < cfg.maxRetry ==> !Resends(cfg, e)
    ensures Drops(e) && cfg.maxRetry <= cfg.maxWait ==> Aged(cfg, e).retry == 1
  {
    StrideExactly(cfg, 0);
    StrideBound(cfg);
    if cfg.Stride() == 0 {
      NoStrideNoResend(cfg, e);
    } else if Drops(e) {
      DroppedWasUsedUp(cfg, e);
    }
  }

  lemma VisitKeepsPartition(cfg: Config, b: Books, k: nat)
    requires cfg.Valid() && Partition(b) && k in b.table
    ensures Partition(VisitBooks(cfg, b, k))
  {
    var e := b.table[k];
    assert VisitBooks(cfg, b, k).table.Keys == b.table.Keys - if Drops(e) then {k} else {};
    hide Aged, Resends, Drops;
  }

  lemma VisitKeepsTransmissions(cfg: Config, b: Books, k: nat, id: nat)
    requires cfg.Valid() && BooksOk(cfg, b) && k in b.table && Sound(cfg, b.table[k])
    ensures TransmissionOk(cfg, VisitBooks(cfg, b, k), id)
  {
    assert TransmissionOk(cfg, b, id);
    var e := b.table[k];
    VisitOnRetry(cfg, e);
    hide Sound, Aged, Resends, Drops, Transmissions;
    if id == k {
      assert VisitBooks(cfg, b, k).sent[k] == 1 + cfg.maxRetry - Aged(cfg, e).retry;
    }
  }

  lemma VisitKeepsBooks(cfg: Config, b: Books, k: nat)
    requires cfg.Valid() && BooksOk(cfg, b) && k in b.table && Sound(cfg, b.table[k])
    ensures BooksOk(cfg, VisitBooks(cfg, b, k))
  {
    VisitKeepsPartition(cfg, b, k);
    forall id: nat
      ensures TransmissionOk(cfg, VisitBooks(cfg, b, k), id)
    {
      VisitKeepsTransmissions(cfg, b, k, id);
    }
    hide VisitBooks;
  }

  /** Only what the client has received can be in the reader's hand. */
  lemma HandedWasReceived(l: Link)
    requires FlowInv(l) && l.reader.Handing?
    ensures l.reader.id in l.received
  {
    var id := l.reader.id;
    assert (l.handed + InHand(l.reader))[id] >= 1;
    assert l.acks[ClientAckFrame(id)] + l.fetched[id] <= l.answered[id];
  }

  lemma PutKeepsBooks(cfg: Config, b: Books, id: nat, body: Bytes)
    requires cfg.Valid() && BooksOk(cfg, b) && id !in b.taken
    ensures BooksOk(cfg, PutBooks(cfg, b, id, body))
  {
    var r := PutBooks(cfg, b, id, body);
    assert r.table.Keys == b.table.Keys + {id};
    forall x: nat
      ensures TransmissionOk(cfg, r, x)
    {
      assert TransmissionOk(cfg, b, x);
    }
  }

  lemma AckKeepsBooks(cfg: Config, b: Books, id: nat)
    requires cfg.Valid() && BooksOk(cfg, b) && (id in b.table ==> Sound(cfg, b.table[id]))
    ensures BooksOk(cfg, AckBooks(b, id))
  {
    if id in b.table {
      var r := AckBooks(b, id);
      assert r.table.Keys == b.table.Keys - {id};
      forall x: nat
        ensures TransmissionOk(cfg, r, x)
      {
        assert TransmissionOk(cfg, b, x);
      }
    }
  }

  /** The writer receives an acknowledgement: a pending message leaves the table and counts as acknowledged, with
      every other entry as it was; for any other id nothing changes. */
  lemma AckSettles(cfg: Config, l: Link)
    requires cfg.Valid() && Enabled(l, HandAck)
    ensures var id, b, r := l.reader.id, l.books, Step(cfg, l, HandAck);
      && r.books.table == b.table - {id}
      && r.books.acked == (if id in b.table then b.acked + {id} else b.acked)
      && (r.books.taken, r.books.expired, r.books.sent) == (b.taken, b.expired, b.sent)
      && r.handed == l.handed + multiset{id}
  {
    if l.reader.id !in l.books.table {
      assert l.books.table - {l.reader.id} == l.books.table;
    }
  }

  /** Only what was transmitted, and so was taken, can come back as an acknowledgement. */
  lemma HandedWasTaken(cfg: Config, l: Link)
    requires cfg.Valid() && FlowInv(l) && BooksOk(cfg, l.books) && l.reader.Handing?
    ensures l.reader.id in l.books.taken
  {
    var id := l.reader.id;
    HandedWasReceived(l);
    assert (l.flight + l.received + l.lost)[id] == l.books.sent[id];
    assert TransmissionOk(cfg, l.books, id);
  }

  lemma StepOnHanded(cfg: Config, l: Link, ev: LinkEvent)
    requires cfg.Valid() && Enabled(l, ev)
    ensures Step(cfg, l, ev).handed == l.handed + if ev.HandAck? then multiset{l.reader.id} else multiset{}
  {
    hide Answers, AckOf, PutBooks, VisitBooks, AckBooks, Resends;
  }

  lemma HandAckKeepsHanded(cfg: Config, l: Link)
    requires cfg.Valid() && LinkInv(cfg, l) && BooksOk(cfg, l.books) && HandedOk(l) && Enabled(l, HandAck)
    ensures HandedOk(Step(cfg, l, HandAck))
  {
    HandedWasTaken(cfg, l);
    AckSettles(cfg, l);
    hide Step, Transmissions, FlowInv, TableOk;
  }

  lemma OthersKeepHanded(cfg: Config, l: Link, ev: LinkEvent)
    requires cfg.Valid() && HandedOk(l) && Enabled(l, ev) && !ev.HandAck?
    ensures HandedOk(Step(cfg, l, ev))
  {
    StepOnHanded(cfg, l, ev);
    StepOnBooks(cfg, l, ev);
    hide Step, AckBooks, Drops, Resends, Aged, Fresh;
  }

  lemma StepKeepsHanded(cfg: Config, l: Link, ev: LinkEvent)
    requires cfg.Valid() && LinkInv(cfg, l) && BooksOk(cfg, l.books) && HandedOk(l) && Enabled(l, ev)
    ensures HandedOk(Step(cfg, l, ev))
  {
    hide *;
    if ev.HandAck? {
      HandAckKeepsHanded(cfg, l);
    } else {
      OthersKeepHanded(cfg, l, ev);
    }
  }

  lemma StepKeepsConserved(cfg: Config, l: Link, ev: LinkEvent)
    requires cfg.Valid() && LinkInv(cfg, l) && Conserved(cfg, l) && Enabled(l, ev) && FreshTake(l, ev)
    ensures Conserved(cfg, Step(cfg, l, ev))
  {
    StepOnBooks(cfg, l, ev);
    StepOnReceived(cfg, l, ev);
    StepKeepsHanded(cfg, l, ev);
    if ev.Take? {
      PutKeepsBooks(cfg, l.books, ev.id, ev.body);
    } else if ev.TickVisit? {
      VisitKeepsBooks(cfg, l.books, ev.k);
    } else if ev.HandAck? {
      AckKeepsBooks(cfg, l.books, l.reader.id);
      HandedWasReceived(l);
    }
    hide Step, BooksOk, HandedOk, LinkInv, Enabled, Fresh, Aged;
  }

  // ---------------------------------------------------------------- a whole tick, step by step

  /** One visit of the tick loop, and the report of the retransmission, if there is one. */
  function VisitAndCount(cfg: Config, l: Link, k: nat): (r: Link)
    requires cfg.Valid() && Enabled(l, TickVisit(k))
    ensures r.writer == Sweeping(l.writer.todo - {k}) && r.books == VisitBooks(cfg, l.books, k)
  {
    var m := Step(cfg, l, TickVisit(k));
    if m.writer.SweepCounting? then Step(cfg, m, CountSend) else m
  }

  lemma RestOfOrder(order: seq<nat>, keys: set<nat>)
    requires IsOrder(order, keys) && order != []
    ensures order[0] in keys && IsOrder(order[1..], keys - {order[0]})
  {
    forall k | k in keys - {order[0]}
      ensures k in order[1..]
    {
      var i :| 0 <= i < |order| && order[i] == k;
      assert order[1..][i - 1] == k;
    }
  }

  /** The steps of the loop, the keys taken in the given order. */
  ghost function SweepLink(cfg: Config, l: Link, order: seq<nat>): Link
    requires cfg.Valid() && l.writer.Sweeping? && IsOrder(order, l.writer.todo) && l.writer.todo <= l.books.table.Keys
    decreases |order|
  {
    if order == [] then l
    else
      RestOfOrder(order, l.writer.todo);
      SweepLink(cfg, VisitAndCount(cfg, l, order[0]), order[1..])
  }

  lemma {:induction false} SweepFromFront(cfg: Config, b: Books, order: seq<nat>)
    requires cfg.Valid() && order != [] && order[0] in b.table
    ensures SweepBooks(cfg, b, order) == SweepBooks(cfg, VisitBooks(cfg, b, order[0]), order[1..])
    decreases |order|
  {
    hide VisitBooks;
    var n := |order| - 1;
    if n == 0 {
      assert order[..0] == [] && order[1..] == [];
      SweepLast(cfg, b, order);
    } else {
      var after := VisitBooks(cfg, b, order[0]);
      assert order[..n][1..] == order[1..][..n - 1];
      SweepFromFront(cfg, b, order[..n]);
      SweepLast(cfg, b, order);
      SweepLast(cfg, after, order[1..]);
      hide SweepBooks;
    }
  }

  lemma SweepLast(cfg: Config, b: Books, order: seq<nat>)
    requires cfg.Valid() && order != []
    ensures var before, k := SweepBooks(cfg, b, order[..|order| - 1]), order[|order| - 1];
      SweepBooks(cfg, b, order) == if k in before.table then VisitBooks(cfg, before, k) else before
  {
  }

  /** The steps of a whole tick leave the books of `SweepBooks`, and the writer with nothing to do. */
  lemma {:induction false} SweepIsSteps(cfg: Config, l: Link, order: seq<nat>)
    requires cfg.Valid() && l.writer.Sweeping? && IsOrder(order, l.writer.todo) && l.writer.todo <= l.books.table.Keys
    ensures SweepLink(cfg, l, order).writer == Sweeping({})
    ensures SweepLink(cfg, l, order).books == SweepBooks(cfg, l.books, order)
    decreases |order|
  {
    if order != [] {
      RestOfOrder(order, l.writer.todo);
      var next := VisitAndCount(cfg, l, order[0]);
      SweepFromFront(cfg, l.books, order);
      hide VisitAndCount;
      SweepIsSteps(cfg, next, order[1..]);
    }
  }
}
