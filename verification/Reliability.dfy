/** Reliable delivery: any number of connections, each with its writer, its reader and its client, and the
    goroutine that keeps the statistics. The network may lose and reorder frames; a client answers a
    peer-addressed frame at most once. */
module Reliability {
  import opened Codec
  import opened Retransmission
  import opened Sums

  /** The writer goroutine: at its select; handing a sent id to the statistics goroutine; walking its table
      on a tick; doing both; returned. */
  datatype Writer =
    | AtSelect
    | Counting(id: nat)
    | Sweeping(todo: set<nat>)
    | SweepCounting(id: nat, todo: set<nat>)
    | Returned
  {
    /** The id that was sent but not counted yet. */
    function Owed(): multiset<nat> {
      if Counting? || SweepCounting? then multiset{id} else multiset{}
    }
  }

  /** The reader goroutine: at its read; handing an acknowledgement to the writer; handing it to the statistics. */
  datatype Reader = Reading | Handing(id: nat) | Reporting(id: nat)

  /** The writer's table, and the history of the messages it took: which were acknowledged, which expired, and
      every transmission. */
  datatype Books = Books(
    table: Table,
    taken: set<nat>,
    acked: set<nat>,
    expired: set<nat>,
    sent: multiset<nat>)

  /** One connection and its client. Frames are named by the id they carry; everything from `counted` on is
      history. */
  datatype Link = Link(
    books: Books,
    writer: Writer,
    reader: Reader,
    flight: multiset<nat>,     // peer-addressed frames written and not read yet
    flightAll: multiset<nat>,  // broadcast frames written and not read yet
    acks: multiset<Bytes>,     // frames written by the client and not read yet
    counted: multiset<nat>,
    received: multiset<nat>,
    lost: multiset<nat>,
    answered: multiset<nat>,
    fetched: multiset<nat>,
    lostAcks: multiset<Bytes>,
    handed: multiset<nat>,
    reported: multiset<nat>)

  const NewLink := Link(Books(map[], {}, {}, {}, multiset{}), AtSelect, Reading,
                        multiset{}, multiset{}, multiset{}, multiset{}, multiset{}, multiset{},
                        multiset{}, multiset{}, multiset{}, multiset{}, multiset{})

  datatype Stat = Stat(sends: nat, acks: nat)

  datatype LinkEvent =
    | TakeAll(id: nat)                  // the writer sends a broadcast message
    | Take(id: nat, body: Bytes)        // the writer sends a peer message for the first time
    | CountSend                         // the statistics goroutine takes a sent id
    | TickStart
    | TickVisit(k: nat)                 // one iteration of the loop over the table
    | TickEnd
    | Return                            // the send channel is closed and drained, or a ping failed
    | ClientRead(id: nat, toAll: bool, payload: Bytes, answers: bool)
    | ServerRead(frame: Bytes)
    | HandAck                           // the writer takes an acknowledgement from the reader
    | CountAck                          // the statistics goroutine takes an acknowledged id
    | Lose(id: nat)
    | LoseAck(frame: Bytes)

  /** A frame that fills its slice. */
  function Whole(frame: Bytes): GoSlice { GoSlice(frame, |frame|) }

  predicate Enabled(l: Link, ev: LinkEvent) {
    match ev
    case TakeAll(_) => l.writer.AtSelect?
    case Take(_, _) => l.writer.AtSelect?
    case CountSend => l.writer.Counting? || l.writer.SweepCounting?
    case TickStart => l.writer.AtSelect?
    case TickVisit(k) => l.writer.Sweeping? && k in l.writer.todo && k in l.books.table
    case TickEnd => l.writer.Sweeping? && l.writer.todo == {}
    case Return => l.writer.AtSelect?
    case ClientRead(id, toAll, payload, _) => if toAll then id in l.flightAll else id in l.flight
    case ServerRead(frame) => l.reader.Reading? && frame in l.acks
    case HandAck => l.reader.Handing? && l.writer.AtSelect?
    case CountAck => l.reader.Reporting?
    case Lose(id) => id in l.flight
    case LoseAck(frame) => frame in l.acks
  }

  /** What the client makes of a frame that it reads, and what it writes back. */
  function Answers(id: nat, toAll: bool, payload: Bytes): seq<Bytes> {
    match ClientAnswer(Whole(PushFrame(id, payload, toAll)))
    case Ok(frames) => frames
    case OutOfRange => []
  }

  /** The acknowledged id, if the frame is an acknowledgement. */
  function AckOf(frame: Bytes): seq<nat> {
    match ServerDecode(Whole(frame), false)
    case Ok(AckMessage(id, _, _)) => [id]
    case _ => []
  }

  function PutBooks(cfg: Config, b: Books, id: nat, body: Bytes): Books {
    b.(table := b.table[id := Fresh(cfg, body)], taken := b.taken + {id}, sent := b.sent + multiset{id})
  }

  function Put(l: Link, id: nat, body: Bytes, cfg: Config): Link {
    l.(books := PutBooks(cfg, l.books, id, body), writer := Counting(id), flight := l.flight + multiset{id})
  }

  /** One iteration of the tick loop: count down, drop, send again. */
  function VisitBooks(cfg: Config, b: Books, k: nat): Books
    requires cfg.Valid() && k in b.table
  {
    var e := b.table[k];
    b.(table := if Drops(e) then b.table - {k} else b.table[k := Aged(cfg, e)],
       expired := if Drops(e) then b.expired + {k} else b.expired,
       sent := if Resends(cfg, e) then b.sent + multiset{k} else b.sent)
  }

  /** A whole tick: every key of the table is visited once, in the given order. */
  function SweepBooks(cfg: Config, b: Books, order: seq<nat>): Books
    requires cfg.Valid()
  {
    if order == [] then b
    else
      var before, k := SweepBooks(cfg, b, order[..|order| - 1]), order[|order| - 1];
      if k in before.table then VisitBooks(cfg, before, k) else before
  }

  lemma VisitIsVisit(cfg: Config, b: Books, k: nat)
    requires cfg.Valid() && k in b.table
    ensures VisitBooks(cfg, b, k).table == Visit(cfg, Sweep(b.table, []), k).table
  {
  }

  lemma OneMoreVisited(cfg: Config, b: Books, order: seq<nat>, k: nat, keys: set<nat>, todo: set<nat>)
    requires cfg.Valid() && IsOrder(order, keys - todo) && todo <= keys && k in todo
    ensures IsOrder(order + [k], keys - (todo - {k}))
    ensures k in SweepBooks(cfg, b, order).table ==>
              SweepBooks(cfg, b, order + [k]) == VisitBooks(cfg, SweepBooks(cfg, b, order), k)
  {
    assert (order + [k])[..|order|] == order;
  }

  function VisitEntry(cfg: Config, l: Link, k: nat): Link
    requires cfg.Valid() && l.writer.Sweeping? && k in l.books.table
  {
    var again := Resends(cfg, l.books.table[k]);
    var todo := l.writer.todo - {k};
    l.(books := VisitBooks(cfg, l.books, k),
       writer := if again then SweepCounting(k, todo) else Sweeping(todo),
       flight := if again then l.flight + multiset{k} else l.flight)
  }

  function AckBooks(b: Books, id: nat): Books {
    if id in b.table then b.(table := b.table - {id}, acked := b.acked + {id}) else b
  }

  function Read(l: Link, id: nat, toAll: bool, payload: Bytes, answers: bool): Link {
    var l1 := if toAll then l.(flightAll := l.flightAll - multiset{id})
              else l.(flight := l.flight - multiset{id}, received := l.received + multiset{id});
    if answers then
      var frames := Answers(id, toAll, payload);
      l1.(acks := l.acks + multiset(frames),
          answered := if frames == [] then l.answered else l.answered + multiset{id})
    else l1
  }

  function Step(cfg: Config, l: Link, ev: LinkEvent): Link
    requires cfg.Valid() && Enabled(l, ev)
  {
    match ev
    case TakeAll(id) => l.(flightAll := l.flightAll + multiset{id})
    case Take(id, body) => Put(l, id, body, cfg)
    case CountSend =>
      l.(writer := if l.writer.Counting? then AtSelect else Sweeping(l.writer.todo),
         counted := l.counted + multiset{l.writer.id})
    case TickStart => l.(writer := Sweeping(l.books.table.Keys))
    case TickVisit(k) => VisitEntry(cfg, l, k)
    case TickEnd => l.(writer := AtSelect)
    case Return => l.(writer := Returned)
    case ClientRead(id, toAll, payload, answers) => Read(l, id, toAll, payload, answers)
    case ServerRead(frame) =>
      var id := AckOf(frame);
      var l1 := l.(acks := l.acks - multiset{frame});
      if id == [] then l1 else l1.(reader := Handing(id[0]), fetched := l.fetched + multiset{id[0]})
    case HandAck =>
      var id := l.reader.id;
      l.(books := AckBooks(l.books, id), reader := Reporting(id), handed := l.handed + multiset{id})
    case CountAck => l.(reader := Reading, reported := l.reported + multiset{l.reader.id})
    case Lose(id) => l.(flight := l.flight - multiset{id}, lost := l.lost + multiset{id})
    case LoseAck(frame) => l.(acks := l.acks - multiset{frame}, lostAcks := l.lostAcks + multiset{frame})
  }

  /** The two cases of the statistics goroutine; an id that was never recorded is ignored. */
  function OneMoreSend(stats: map<nat, Stat>, id: nat): map<nat, Stat> {
    if id in stats then stats[id := stats[id].(sends := stats[id].sends + 1)] else stats
  }

  function OneMoreAck(stats: map<nat, Stat>, id: nat): map<nat, Stat> {
    if id in stats then stats[id := stats[id].(acks := stats[id].acks + 1)] else stats
  }

  function CountStats(l: Link, ev: LinkEvent, stats: map<nat, Stat>): map<nat, Stat>
    requires Enabled(l, ev)
  {
    if ev.CountSend? then OneMoreSend(stats, l.writer.id)
    else if ev.CountAck? then OneMoreAck(stats, l.reader.id)
    else stats
  }

  // ---------------------------------------------------------------- the flow of frames on one link

  lemma AckFrameInjective(id: nat, id': nat)
    requires id < TWO_32 && id' < TWO_32 && ClientAckFrame(id) == ClientAckFrame(id')
    ensures id == id'
  {
    assert ClientAckFrame(id)[..4] == BigEndian(U32(id)) && ClientAckFrame(id')[..4] == BigEndian(U32(id'));
    BigEndianRoundTrip(U32(id));
    BigEndianRoundTrip(U32(id'));
  }

  lemma AnswersAre(id: nat, toAll: bool, payload: Bytes)
    ensures Answers(id, toAll, payload) == if toAll then [] else [ClientAckFrame(id)]
  {
    PushRoundTrip(Whole(PushFrame(id, payload, toAll)), id, payload, toAll);
  }

  lemma AckOfAck(id: nat)
    requires id < TWO_32
    ensures AckOf(ClientAckFrame(id)) == [id]
  {
    AckRoundTrip(Whole(ClientAckFrame(id)), id, false);
    U32Exact(id);
  }

  /** Every peer-addressed frame that was written has been counted, except the one the writer still owes; and it
      is on its way, or was read, or was lost. */
  ghost predicate SendFlow(sent: multiset<nat>, counted: multiset<nat>, owed: multiset<nat>,
                           flight: multiset<nat>, received: multiset<nat>, lost: multiset<nat>) {
    && counted + owed == sent
    && flight + received + lost == sent
    && forall id :: id in sent ==> id < TWO_32
  }

  ghost predicate IsAck(frame: Bytes) {
    exists id: nat :: id < TWO_32 && frame == ClientAckFrame(id)
  }

  /** What the client answered was received; every answer is on its way back, or was read by the server, or was
      lost. */
  ghost predicate AckFlow(received: multiset<nat>, answered: multiset<nat>, acks: multiset<Bytes>, fetched: multiset<nat>,
                          lostAcks: multiset<Bytes>) {
    && answered <= received
    && (forall frame :: frame in acks ==> IsAck(frame))
    && (forall id: nat :: id < TWO_32 ==>
          acks[ClientAckFrame(id)] + fetched[id] + lostAcks[ClientAckFrame(id)] == answered[id])
    && (forall id :: id in fetched ==> id < TWO_32)
  }

  function InHand(reader: Reader): multiset<nat> {
    if reader.Handing? then multiset{reader.id} else multiset{}
  }

  function InReport(reader: Reader): multiset<nat> {
    if reader.Reporting? then multiset{reader.id} else multiset{}
  }

  /** What the reader fetched, it hands to the writer and then reports; what the writer was handed, it had counted. */
  ghost predicate HandFlow(fetched: multiset<nat>, handed: multiset<nat>, reported: multiset<nat>,
                           reader: Reader, counted: multiset<nat>) {
    && fetched == handed + InHand(reader)
    && handed == reported + InReport(reader)
    && handed <= counted
  }

  /** Every frame is accounted for, from the writer to the client and back to the statistics. */
  ghost predicate FlowInv(l: Link) {
    && SendFlow(l.books.sent, l.counted, l.writer.Owed(), l.flight, l.received, l.lost)
    && AckFlow(l.received, l.answered, l.acks, l.fetched, l.lostAcks)
    && HandFlow(l.fetched, l.handed, l.reported, l.reader, l.counted)
  }

  lemma SendKeeps(sent: multiset<nat>, counted: multiset<nat>, flight: multiset<nat>, received: multiset<nat>,
                  lost: multiset<nat>, id: nat)
    requires SendFlow(sent, counted, multiset{}, flight, received, lost) && id < TWO_32
    ensures SendFlow(sent + multiset{id}, counted, multiset{id}, flight + multiset{id}, received, lost)
  {
  }

  lemma TakeKeepsFlow(cfg: Config, l: Link, id: nat, body: Bytes)
    requires cfg.Valid() && FlowInv(l) && Enabled(l, Take(id, body)) && id < TWO_32
    ensures FlowInv(Put(l, id, body, cfg))
  {
    SendKeeps(l.books.sent, l.counted, l.flight, l.received, l.lost, id);
    hide SendFlow, AckFlow, HandFlow;
  }

  lemma SentIsSmall(sent: multiset<nat>, counted: multiset<nat>, owed: multiset<nat>, flight: multiset<nat>,
                    received: multiset<nat>, lost: multiset<nat>, id: nat)
    requires SendFlow(sent, counted, owed, flight, received, lost) && id in sent
    ensures id < TWO_32
  {
  }

  lemma VisitKeepsFlow(cfg: Config, l: Link, k: nat)
    requires cfg.Valid() && FlowInv(l) && Enabled(l, TickVisit(k)) && k in l.books.sent
    ensures FlowInv(VisitEntry(cfg, l, k))
  {
    hide SendFlow, AckFlow, HandFlow, Resends, Drops, Aged;
    SentIsSmall(l.books.sent, l.counted, l.writer.Owed(), l.flight, l.received, l.lost, k);
    SendKeeps(l.books.sent, l.counted, l.flight, l.received, l.lost, k);
  }

  lemma CountedMore(sent: multiset<nat>, counted: multiset<nat>, flight: multiset<nat>, received: multiset<nat>,
                    lost: multiset<nat>, id: nat)
    requires SendFlow(sent, counted, multiset{id}, flight, received, lost)
    ensures SendFlow(sent, counted + multiset{id}, multiset{}, flight, received, lost)
  {
  }

  lemma HandMore(fetched: multiset<nat>, handed: multiset<nat>, reported: multiset<nat>, reader: Reader,
                 counted: multiset<nat>, id: nat)
    requires HandFlow(fetched, handed, reported, reader, counted)
    ensures HandFlow(fetched, handed, reported, reader, counted + multiset{id})
  {
  }

  lemma CountKeepsFlow(cfg: Config, l: Link)
    requires cfg.Valid() && FlowInv(l) && Enabled(l, CountSend)
    ensures FlowInv(Step(cfg, l, CountSend))
  {
    hide SendFlow, AckFlow, HandFlow;
    CountedMore(l.books.sent, l.counted, l.flight, l.received, l.lost, l.writer.id);
    HandMore(l.fetched, l.handed, l.reported, l.reader, l.counted, l.writer.id);
  }

  lemma FramesApart(id: nat)
    requires id < TWO_32
    ensures forall id': nat :: id' < TWO_32 && id' != id ==> ClientAckFrame(id') != ClientAckFrame(id)
  {
    forall id': nat | id' < TWO_32 && id' != id
      ensures ClientAckFrame(id') != ClientAckFrame(id)
    {
      if ClientAckFrame(id') == ClientAckFrame(id) {
        AckFrameInjective(id', id);
      }
    }
  }

  lemma ReceivedGrows(received: multiset<nat>, answered: multiset<nat>, acks: multiset<Bytes>, fetched: multiset<nat>,
                     lostAcks: multiset<Bytes>, id: nat)
    requires AckFlow(received, answered, acks, fetched, lostAcks)
    ensures AckFlow(received + multiset{id}, answered, acks, fetched, lostAcks)
  {
    hide ClientAckFrame, IsAck;
  }

  lemma AckAnswered(received: multiset<nat>, answered: multiset<nat>, acks: multiset<Bytes>, fetched: multiset<nat>,
                     lostAcks: multiset<Bytes>, id: nat)
    requires AckFlow(received, answered, acks, fetched, lostAcks) && id < TWO_32
    ensures AckFlow(received + multiset{id}, answered + multiset{id}, acks + multiset{ClientAckFrame(id)}, fetched, lostAcks)
  {
    FramesApart(id);
    var f := ClientAckFrame(id);
    assert IsAck(f);
    hide ClientAckFrame, IsAck;
    forall frame | frame in acks + multiset{f}
      ensures IsAck(frame)
    {
    }
    forall id': nat | id' < TWO_32
      ensures (acks + multiset{f})[ClientAckFrame(id')] + fetched[id'] <= (answered + multiset{id})[id']
    {
      if id' != id {
        assert ClientAckFrame(id') != f;
      }
    }
  }

  lemma FrameRead(sent: multiset<nat>, counted: multiset<nat>, owed: multiset<nat>, flight: multiset<nat>,
                  received: multiset<nat>, lost: multiset<nat>, id: nat)
    requires SendFlow(sent, counted, owed, flight, received, lost) && id in flight
    ensures id < TWO_32 && SendFlow(sent, counted, owed, flight - multiset{id}, received + multiset{id}, lost)
  {
    assert id in sent;
  }

  lemma ClientKeepsFlow(cfg: Config, l: Link, id: nat, toAll: bool, payload: Bytes, answers: bool)
    requires cfg.Valid() && FlowInv(l) && Enabled(l, ClientRead(id, toAll, payload, answers))
    ensures FlowInv(Read(l, id, toAll, payload, answers))
  {
    AnswersAre(id, toAll, payload);
    hide Answers, ClientAckFrame, SendFlow, AckFlow, HandFlow;
    if !toAll {
      FrameRead(l.books.sent, l.counted, l.writer.Owed(), l.flight, l.received, l.lost, id);
      AckAnswered(l.received, l.answered, l.acks, l.fetched, l.lostAcks, id);
      ReceivedGrows(l.received, l.answered, l.acks, l.fetched, l.lostAcks, id);
      assert multiset([ClientAckFrame(id)]) == multiset{ClientAckFrame(id)};
    } else {
      var none: seq<Bytes> := [];
      assert multiset(none) == multiset{} && l.acks + multiset(none) == l.acks;
    }
  }

  lemma AckLost(received: multiset<nat>, answered: multiset<nat>, acks: multiset<Bytes>, fetched: multiset<nat>,
                lostAcks: multiset<Bytes>, frame: Bytes)
    requires AckFlow(received, answered, acks, fetched, lostAcks) && frame in acks
    ensures AckFlow(received, answered, acks - multiset{frame}, fetched, lostAcks + multiset{frame})
  {
    hide ClientAckFrame, IsAck;
  }

  lemma AckFetched(received: multiset<nat>, answered: multiset<nat>, acks: multiset<Bytes>, fetched: multiset<nat>,
                     lostAcks: multiset<Bytes>, id: nat)
    requires AckFlow(received, answered, acks, fetched, lostAcks) && id < TWO_32 && ClientAckFrame(id) in acks
    ensures AckFlow(received, answered, acks - multiset{ClientAckFrame(id)}, fetched + multiset{id}, lostAcks)
  {
    FramesApart(id);
    var f := ClientAckFrame(id);
    hide ClientAckFrame, IsAck;
    forall id': nat | id' < TWO_32
      ensures (acks - multiset{f})[ClientAckFrame(id')] + (fetched + multiset{id})[id'] <= answered[id']
    {
      if id' != id {
        assert ClientAckFrame(id') != f;
      }
    }
  }

  /** The reader goes once round: it fetches an acknowledgement, hands it over and reports it. */
  lemma HandFetches(fetched: multiset<nat>, handed: multiset<nat>, reported: multiset<nat>, counted: multiset<nat>, id: nat)
    requires HandFlow(fetched, handed, reported, Reading, counted)
    ensures HandFlow(fetched + multiset{id}, handed, reported, Handing(id), counted)
  {
  }

  lemma HandGives(fetched: multiset<nat>, handed: multiset<nat>, reported: multiset<nat>, counted: multiset<nat>, id: nat)
    requires HandFlow(fetched, handed, reported, Handing(id), counted) && fetched <= counted
    ensures HandFlow(fetched, handed + multiset{id}, reported, Reporting(id), counted)
  {
  }

  lemma HandReports(fetched: multiset<nat>, handed: multiset<nat>, reported: multiset<nat>, counted: multiset<nat>, id: nat)
    requires HandFlow(fetched, handed, reported, Reporting(id), counted)
    ensures HandFlow(fetched, handed, reported + multiset{id}, Reading, counted)
  {
  }

  lemma AcksAreAcks(received: multiset<nat>, answered: multiset<nat>, acks: multiset<Bytes>, fetched: multiset<nat>,
                lostAcks: multiset<Bytes>, frame: Bytes)
    requires AckFlow(received, answered, acks, fetched, lostAcks) && frame in acks
    ensures IsAck(frame)
  {
    hide ClientAckFrame, IsAck;
  }

  lemma ServerKeepsFlow(cfg: Config, l: Link, frame: Bytes)
    requires cfg.Valid() && FlowInv(l) && Enabled(l, ServerRead(frame))
    ensures FlowInv(Step(cfg, l, ServerRead(frame)))
  {
    hide AckFlow, SendFlow, HandFlow, ClientAckFrame, AckOf;
    AcksAreAcks(l.received, l.answered, l.acks, l.fetched, l.lostAcks, frame);
    var id: nat :| id < TWO_32 && frame == ClientAckFrame(id);
    AckOfAck(id);
    AckFetched(l.received, l.answered, l.acks, l.fetched, l.lostAcks, id);
    HandFetches(l.fetched, l.handed, l.reported, l.counted, id);
    hide IsAck;
  }

  /** A writer that owes nothing has counted everything that the server can have fetched. */
  lemma FetchedIsCounted(sent: multiset<nat>, counted: multiset<nat>, flight: multiset<nat>, received: multiset<nat>,
                         lost: multiset<nat>, answered: multiset<nat>, acks: multiset<Bytes>, fetched: multiset<nat>,
                         lostAcks: multiset<Bytes>)
    requires SendFlow(sent, counted, multiset{}, flight, received, lost) && AckFlow(received, answered, acks, fetched, lostAcks)
    ensures fetched <= counted
  {
    hide IsAck, ClientAckFrame;
    forall id: nat
      ensures fetched[id] <= counted[id]
    {
      if id < TWO_32 {
        assert acks[ClientAckFrame(id)] + fetched[id] <= answered[id];
        assert (flight + received)[id] <= sent[id];
      } else {
        assert id !in fetched;
      }
    }
  }

  /** An acknowledgement is handed over only while the writer is at its select, so when it has counted
      everything that it sent. */
  lemma HandOverKeepsFlow(cfg: Config, l: Link)
    requires cfg.Valid() && FlowInv(l) && Enabled(l, HandAck)
    ensures FlowInv(Step(cfg, l, HandAck))
  {
    hide SendFlow, AckFlow, HandFlow;
    FetchedIsCounted(l.books.sent, l.counted, l.flight, l.received, l.lost, l.answered, l.acks, l.fetched, l.lostAcks);
    HandGives(l.fetched, l.handed, l.reported, l.counted, l.reader.id);
  }

  lemma ReportKeepsFlow(cfg: Config, l: Link)
    requires cfg.Valid() && FlowInv(l) && Enabled(l, CountAck)
    ensures FlowInv(Step(cfg, l, CountAck))
  {
    hide SendFlow, AckFlow, HandFlow;
    HandReports(l.fetched, l.handed, l.reported, l.counted, l.reader.id);
  }

  lemma FrameLost(sent: multiset<nat>, counted: multiset<nat>, owed: multiset<nat>, flight: multiset<nat>,
                  received: multiset<nat>, lost: multiset<nat>, id: nat)
    requires SendFlow(sent, counted, owed, flight, received, lost) && id in flight
    ensures SendFlow(sent, counted, owed, flight - multiset{id}, received, lost + multiset{id})
  {
  }

  lemma LossKeepsFlow(cfg: Config, l: Link, ev: LinkEvent)
    requires cfg.Valid() && FlowInv(l) && Enabled(l, ev) && (ev.Lose? || ev.LoseAck?)
    ensures FlowInv(Step(cfg, l, ev))
  {
    hide SendFlow, AckFlow, HandFlow;
    if ev.Lose? {
      FrameLost(l.books.sent, l.counted, l.writer.Owed(), l.flight, l.received, l.lost, ev.id);
    } else {
      AckLost(l.received, l.answered, l.acks, l.fetched, l.lostAcks, ev.frame);
    }
  }

  lemma SelectKeepsFlow(cfg: Config, l: Link, ev: LinkEvent)
    requires cfg.Valid() && FlowInv(l) && Enabled(l, ev) && (ev.TakeAll? || ev.Return?)
    ensures FlowInv(Step(cfg, l, ev))
  {
    hide SendFlow, AckFlow, HandFlow;
  }

  lemma TickKeepsFlow(cfg: Config, l: Link, ev: LinkEvent)
    requires cfg.Valid() && FlowInv(l) && Enabled(l, ev) && (ev.TickStart? || ev.TickEnd?)
    ensures FlowInv(Step(cfg, l, ev))
  {
    hide SendFlow, AckFlow, HandFlow;
  }

  lemma StepKeepsFlow(cfg: Config, l: Link, ev: LinkEvent)
    requires cfg.Valid() && FlowInv(l) && Enabled(l, ev)
    requires (ev.TickVisit? ==> ev.k in l.books.sent) && (ev.Take? ==> ev.id < TWO_32)
    ensures FlowInv(Step(cfg, l, ev))
  {
    hide FlowInv;
    match ev
    case Take(id, body) => TakeKeepsFlow(cfg, l, id, body);
    case TickVisit(k) => VisitKeepsFlow(cfg, l, k);
    case CountSend => CountKeepsFlow(cfg, l);
    case ClientRead(id, toAll, payload, answers) => ClientKeepsFlow(cfg, l, id, toAll, payload, answers);
    case ServerRead(frame) => ServerKeepsFlow(cfg, l, frame);
    case HandAck => HandOverKeepsFlow(cfg, l);
    case CountAck => ReportKeepsFlow(cfg, l);
    case Lose(_) => LossKeepsFlow(cfg, l, ev);
    case LoseAck(_) => LossKeepsFlow(cfg, l, ev);
    case TakeAll(_) => SelectKeepsFlow(cfg, l, ev);
    case Return => SelectKeepsFlow(cfg, l, ev);
    case TickStart => TickKeepsFlow(cfg, l, ev);
    case TickEnd => TickKeepsFlow(cfg, l, ev);
  }

  /** A peer-addressed frame that the client answers puts exactly its acknowledgement on the way back; a broadcast
      puts nothing there. */
  lemma AnswerGoesBack(cfg: Config, l: Link, ev: LinkEvent)
    requires cfg.Valid() && Enabled(l, ev) && ev.ClientRead?
    ensures Step(cfg, l, ev).acks == l.acks + if ev.answers && !ev.toAll then multiset{ClientAckFrame(ev.id)} else multiset{}
  {
    AnswersAre(ev.id, ev.toAll, ev.payload);
    hide Answers, ClientAckFrame;
    assert multiset([ClientAckFrame(ev.id)]) == multiset{ClientAckFrame(ev.id)};
    var none: seq<Bytes> := [];
    assert multiset(none) == multiset{};
    assert l.acks + multiset{} == l.acks;
  }

  /** What the reader reads is an acknowledgement, and its id goes to the writer. */
  lemma AckReachesReader(cfg: Config, l: Link, frame: Bytes) returns (id: nat)
    requires cfg.Valid() && FlowInv(l) && Enabled(l, ServerRead(frame))
    ensures id < TWO_32 && frame == ClientAckFrame(id)
    ensures Step(cfg, l, ServerRead(frame)).reader == Handing(id)
  {
    hide AckFlow, SendFlow, HandFlow, ClientAckFrame, AckOf;
    AcksAreAcks(l.received, l.answered, l.acks, l.fetched, l.lostAcks, frame);
    id :| id < TWO_32 && frame == ClientAckFrame(id);
    AckOfAck(id);
    hide IsAck;
  }
}
