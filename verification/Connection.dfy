/** A websocket connection of the server: its outbound channel, and the writer goroutine with its
    retransmission table, updated in place. */
module Connections {
  import opened Codec
  import opened Messages
  import R = Retransmission
  import M = RoomModel
  import Q = Reliability

  /** What goes to the socket: a text frame, or the frame that closes the websocket. */
  datatype Output = Text(frame: Bytes) | CloseFrame

  class WriteMsg {
    const body: Bytes
    var retryTimes: int
    var waitTtl: int

    constructor (body: Bytes, retryTimes: int, waitTtl: int)
      ensures this.body == body && this.retryTimes == retryTimes && this.waitTtl == waitTtl
    {
      this.body, this.retryTimes, this.waitTtl := body, retryTimes, waitTtl;
    }

    ghost function View(): R.Entry
      reads this
    {
      R.Entry(body, retryTimes, waitTtl)
    }
  }

  class Connection {
    const peerId: PeerId
    var send: seq<PushMsg>  // the outbound channel
    var closed: bool
    var writeMsgQ: map<nat, WriteMsg>
    ghost var owned: set<WriteMsg>  // every message object this writer ever made
    var notifyMu: nat            // tokens in the mutex channel of the socket
    ghost var wire: seq<Output>  // what was written to the socket
    ghost var toStats: seq<nat>  // the ids handed to the statistics goroutine
    // What became of the peer messages that the writer took.
    ghost var taken: set<nat>
    ghost var acked: set<nat>
    ghost var expired: set<nat>
    ghost var transmitted: multiset<nat>
    // What the room knows about the connection.
    ghost const index: nat
    ghost var phase: M.Phase
    ghost var evicted: bool
    ghost var hist: seq<PushMsg>
    ghost var start: nat
    ghost var left: Option<int>

    constructor (peerId: PeerId, ghost index: nat)
      ensures Valid() && Books() == Q.NewLink.books && wire == [] && toStats == [] && notifyMu == 1
      ensures this.peerId == peerId && this.index == index && View() == M.NewConn(peerId)
    {
      this.peerId, this.index := peerId, index;
      send, closed, writeMsgQ, owned, wire, toStats := [], false, map[], {}, [], [];
      notifyMu := 1;
      taken, acked, expired, transmitted := {}, {}, {}, multiset{};
      phase, evicted, hist, start, left := M.Born, false, [], 0, None;
    }

    ghost function View(): M.Conn
      reads this
    {
      M.Conn(peerId, send, closed, phase, evicted, hist, start, left)
    }

    /** The writer's messages are separate objects. */
    ghost predicate Valid()
      reads this`writeMsgQ, this`owned
    {
      && (forall k :: k in writeMsgQ ==> writeMsgQ[k] in owned)
      && (forall j, k :: j in writeMsgQ && k in writeMsgQ && j != k ==> writeMsgQ[j] != writeMsgQ[k])
    }

    ghost function Table(): R.Table
      requires Valid()
      reads this`writeMsgQ, this`owned, owned
    {
      map k | k in writeMsgQ :: writeMsgQ[k].View()
    }

    /** The writer's table and what it did with every message it took. */
    ghost function Books(): Q.Books
      requires Valid()
      reads this, owned
    {
      Q.Books(Table(), taken, acked, expired, transmitted)
    }

    lemma TableKeys()
      requires Valid()
      ensures Table().Keys == writeMsgQ.Keys
    {
    }

    /** Write a frame, holding the token of the socket. */
    method Write(ghost out: Output)
      requires 1 <= notifyMu
      modifies this`wire, this`notifyMu
      ensures wire == old(wire) + [out] && notifyMu == old(notifyMu)
    {
      notifyMu := notifyMu - 1;
      wire := wire + [out];
      notifyMu := notifyMu + 1;
    }

    method SendPush(id: nat, body: Bytes, isBrAll: bool)
      requires 1 <= notifyMu
      modifies this`wire, this`notifyMu
      ensures wire == old(wire) + [Text(PushFrame(id, body, isBrAll))] && notifyMu == old(notifyMu)
    {
      var buf := EncodePush(id, body, isBrAll);
      Write(Text(buf[..]));
    }

    /** The message goes into the table, with fresh countdowns. */
    method Enter(cfg: R.Config, id: nat, body: Bytes)
      requires Valid()
      modifies this`writeMsgQ, this`owned, this`taken, this`transmitted
      ensures Valid() && fresh(owned - old(owned)) && Books() == Q.PutBooks(cfg, old(Books()), id, body)
      ensures Table() == old(Table())[id := R.Entry(body, cfg.maxRetry, cfg.maxWait)]
    {
      var next := new WriteMsg(body, cfg.maxRetry, cfg.maxWait);
      writeMsgQ := writeMsgQ[id := next];
      owned := owned + {next};
      taken, transmitted := taken + {id}, transmitted + multiset{id};
      assert Table() == old(Table())[id := R.Fresh(cfg, body)];
    }

    /** The writer receives from its channel. False when the channel is closed and drained: it says goodbye and
        returns. Otherwise it puts the right frame on the wire; a peer message is entered into the books as the
        protocol enters a taken message. */
    method OnSend(cfg: R.Config) returns (running: bool)
      requires Valid() && (send != [] || closed) && 1 <= notifyMu
      modifies this`send, this`writeMsgQ, this`owned, this`wire, this`notifyMu, this`toStats, this`taken, this`transmitted
      ensures Valid() && fresh(owned - old(owned)) && running == (old(send) != []) && notifyMu == old(notifyMu)
      ensures !running ==>
                send == [] && Books() == old(Books()) && wire == old(wire) + [CloseFrame] && toStats == old(toStats)
      ensures running ==>
                var m := old(send)[0];
                && send == old(send)[1..]
                && wire == old(wire) + [Text(PushFrame(m.id, m.body, m.isBrAll))]
                && Books() == (if m.isBrAll then old(Books()) else Q.PutBooks(cfg, old(Books()), m.id, m.body))
                && Table() == (if m.isBrAll then old(Table())
                               else old(Table())[m.id := R.Entry(m.body, cfg.maxRetry, cfg.maxWait)])
                && toStats == old(toStats) + (if m.isBrAll then [] else [m.id])
    {
      hide PushFrame, Table, Q.PutBooks;
      ghost var t0 := Table();
      if send == [] {
        Write(CloseFrame);
        return false;
      }
      var message := send[0];
      send := send[1..];
      assert Table() == t0;
      if message.isBrAll {
        SendPush(message.id, message.body, message.isBrAll);
      } else {
        Enter(cfg, message.id, message.body);
        SendPush(message.id, message.body, message.isBrAll);
        toStats := toStats + [message.id];
      }
      running := true;
    }

    /** The writer receives an acknowledgement; an unknown one changes nothing. */
    method OnAck(ackSeq: nat)
      requires Valid()
      modifies this`writeMsgQ, this`acked
      ensures Valid() && Books() == Q.AckBooks(old(Books()), ackSeq)
      ensures Table() == old(Table()) - {ackSeq}
      ensures acked == if ackSeq in old(Table()) then old(acked) + {ackSeq} else old(acked)
    {
      TableKeys();
      if ackSeq in writeMsgQ {
        writeMsgQ := writeMsgQ - {ackSeq};
        acked := acked + {ackSeq};
      }
      assert Table() == old(Table()) - {ackSeq};
    }

    /** The frames of retransmissions, in the order in which they are sent. */
    static ghost function Resends(ids: seq<nat>, t: R.Table): seq<Output>
      requires forall i :: 0 <= i < |ids| ==> ids[i] in t
    {
      if ids == [] then []
      else
        var last := ids[|ids| - 1];
        Resends(ids[..|ids| - 1], t) + [Text(PushFrame(last, t[last].body, false))]
    }

    /** The wait of one message is counted down; when it is up, the message is deleted. */
    method CountDown(ackSeq: nat) returns (msg: WriteMsg)
      requires Valid() && ackSeq in writeMsgQ
      modifies this`writeMsgQ, this`expired, writeMsgQ[ackSeq]
      ensures Valid() && msg == old(writeMsgQ)[ackSeq] && msg in owned
      ensures forall k :: k in writeMsgQ && k != ackSeq ==> writeMsgQ[k] != msg
      ensures msg.View() == old(Table())[ackSeq].(wait := old(Table())[ackSeq].wait - 1)
      ensures var drops := R.Drops(old(Table())[ackSeq]);
        && Table() == (if drops then old(Table()) - {ackSeq} else old(Table())[ackSeq := msg.View()])
        && expired == (if drops then old(expired) + {ackSeq} else old(expired))
      ensures ackSeq in writeMsgQ ==> writeMsgQ[ackSeq] == msg
    {
      msg := writeMsgQ[ackSeq];
      msg.waitTtl := msg.waitTtl - 1;
      if msg.waitTtl <= 0 {
        writeMsgQ := writeMsgQ - {ackSeq};
        expired := expired + {ackSeq};
      }
    }

    /** The message is sent again, and its retries are counted down. */
    method SendAgain(ackSeq: nat, msg: WriteMsg)
      requires Valid() && 1 <= notifyMu && msg in owned
      requires ackSeq in writeMsgQ ==> writeMsgQ[ackSeq] == msg
      requires forall k :: k in writeMsgQ && k != ackSeq ==> writeMsgQ[k] != msg
      modifies this`wire, this`notifyMu, this`toStats, this`transmitted, msg`retryTimes
      ensures Valid() && notifyMu == old(notifyMu)
      ensures wire == old(wire) + [Text(PushFrame(ackSeq, msg.body, false))] && toStats == old(toStats) + [ackSeq]
      ensures transmitted == old(transmitted) + multiset{ackSeq}
      ensures msg.View() == old(msg.View()).(retry := old(msg.View()).retry - 1)
      ensures Table() == if ackSeq in old(Table()) then old(Table())[ackSeq := msg.View()] else old(Table())
    {
      SendPush(ackSeq, msg.body, false);
      transmitted := transmitted + multiset{ackSeq};
      toStats := toStats + [ackSeq];
      msg.retryTimes := msg.retryTimes - 1;
    }

    /** What a visit does, in terms of the two countdowns and the configured ones alone. */
    static lemma VisitSpelledOut(cfg: R.Config, b: Q.Books, k: nat)
      requires cfg.Valid() && k in b.table
      ensures var e, again := b.table[k], R.Resends(cfg, b.table[k]);
        && (forall s :: cfg.IsStride(s) ==> again == (e.wait - 1 < (e.retry - 1) * s))
        && Q.VisitBooks(cfg, b, k).table
           == (if e.wait <= 1 then b.table - {k}
               else b.table[k := e.(wait := e.wait - 1, retry := if again then e.retry - 1 else e.retry)])
    {
      forall s | cfg.IsStride(s)
        ensures s == cfg.Stride()
      {
        R.StrideExactly(cfg, s);
      }
    }

    /** The body of the loop over the table: count down, drop, send again; the books move as in a visit of the
        protocol. */
    method VisitBody(cfg: R.Config, ackSeq: nat) returns (ghost again: bool)
      requires Valid() && cfg.Valid() && ackSeq in writeMsgQ && 1 <= notifyMu
      modifies this`writeMsgQ, this`wire, this`notifyMu, this`toStats, this`expired, this`transmitted, writeMsgQ[ackSeq]
      ensures Valid() && notifyMu == old(notifyMu)
      ensures Books() == Q.VisitBooks(cfg, old(Books()), ackSeq)
      ensures var e := old(Table())[ackSeq];
        && again == R.Resends(cfg, e)
        && wire == (if again then old(wire) + [Text(PushFrame(ackSeq, e.body, false))] else old(wire))
        && toStats == (if again then old(toStats) + [ackSeq] else old(toStats))
    {
      hide PushFrame, Table;
      ghost var t0 := Table();
      TableKeys();
      ghost var e := t0[ackSeq];
      var msg := CountDown(ackSeq);
      again := msg.waitTtl < (msg.retryTimes - 1) * (cfg.maxWait / cfg.maxRetry);
      if msg.waitTtl < (msg.retryTimes - 1) * (cfg.maxWait / cfg.maxRetry) {
        SendAgain(ackSeq, msg);
      }
      assert msg.View() == R.Aged(cfg, e);
    }

    /** One iteration of the loop over the table, also in terms of the two countdowns and the configured ones alone. */
    method Visit(cfg: R.Config, ackSeq: nat) returns (ghost again: bool)
      requires Valid() && cfg.Valid() && ackSeq in writeMsgQ && 1 <= notifyMu
      modifies this`writeMsgQ, this`wire, this`notifyMu, this`toStats, this`expired, this`transmitted, writeMsgQ[ackSeq]
      ensures Valid() && notifyMu == old(notifyMu)
      ensures Books() == Q.VisitBooks(cfg, old(Books()), ackSeq)
      ensures var e := old(Table())[ackSeq];
        && again == R.Resends(cfg, e)
        && (forall s :: cfg.IsStride(s) ==> again == (e.wait - 1 < (e.retry - 1) * s))
        && Table() == (if e.wait <= 1 then old(Table()) - {ackSeq}
                       else old(Table())[ackSeq := e.(wait := e.wait - 1, retry := if again then e.retry - 1 else e.retry)])
        && wire == (if again then old(wire) + [Text(PushFrame(ackSeq, e.body, false))] else old(wire))
        && toStats == (if again then old(toStats) + [ackSeq] else old(toStats))
    {
      TableKeys();
      VisitSpelledOut(cfg, Books(), ackSeq);
      hide PushFrame, Table, Q.VisitBooks, R.Resends;
      again := VisitBody(cfg, ackSeq);
    }

    /** Half way through a tick: `order` has been visited, `sent` sent again, and `todo` is still to come. */
    static ghost predicate Midway(cfg: R.Config, t0: R.Table, t: R.Table, order: seq<nat>, todo: set<nat>,
                                  sent: seq<nat>, frames: seq<Output>)
      requires cfg.Valid()
    {
      && todo <= t0.Keys && todo <= t.Keys
      && (forall k :: k in t0 ==> (k in todo <==> k !in order))
      && (forall k: nat :: R.SweptEntry(cfg, t0, t, order, k))
      && multiset(sent) == multiset(R.DueSet(cfg, t0, order))
      && (forall i :: 0 <= i < |sent| ==> sent[i] in t0)
      && frames == Resends(sent, t0)
    }

    static lemma MidwayStart(cfg: R.Config, t0: R.Table)
      requires cfg.Valid()
      ensures Midway(cfg, t0, t0, [], t0.Keys, [], [])
    {
      assert R.DueSet(cfg, t0, []) == {};
    }

    static lemma OneMoreFrame(sent: seq<nat>, t0: R.Table, k: nat)
      requires (forall i :: 0 <= i < |sent| ==> sent[i] in t0) && k in t0
      ensures Resends(sent + [k], t0) == Resends(sent, t0) + [Text(PushFrame(k, t0[k].body, false))]
    {
      assert (sent + [k])[..|sent|] == sent;
    }

    static lemma MidwayStep(cfg: R.Config, t0: R.Table, t: R.Table, order: seq<nat>, todo: set<nat>,
                            sent: seq<nat>, frames: seq<Output>, k: nat)
      requires cfg.Valid() && Midway(cfg, t0, t, order, todo, sent, frames) && k in todo
      ensures k in t && t[k] == t0[k]
      ensures var again, t' := R.Resends(cfg, t0[k]), R.Visit(cfg, R.Sweep(t, []), k).table;
        Midway(cfg, t0, t', order + [k], todo - {k}, if again then sent + [k] else sent,
               if again then frames + [Text(PushFrame(k, t[k].body, false))] else frames)
    {
      R.SweepNext(cfg, t0, t, order, k);
      OneMoreFrame(sent, t0, k);
      hide Resends;
      assert todo - {k} <= R.Visit(cfg, R.Sweep(t, []), k).table.Keys;
      hide R.SweptEntry, R.Visit, R.DueSet, R.Resends, R.Drops, R.Aged;
    }

    static lemma MidwayEnd(cfg: R.Config, t0: R.Table, t: R.Table, order: seq<nat>, sent: seq<nat>, frames: seq<Output>)
      requires cfg.Valid() && Midway(cfg, t0, t, order, {}, sent, frames)
      ensures t == R.TickTable(cfg, t0) && multiset(sent) == multiset(R.Resent(cfg, t0))
      ensures forall i :: 0 <= i < |sent| ==> sent[i] in t0
      ensures frames == Resends(sent, t0)
    {
      R.SweepDone(cfg, t0, t, order);
    }

    static lemma Assoc<T>(a: seq<T>, b: seq<T>, c: seq<T>)
      ensures (a + b) + c == a + (b + c)
    {
    }

    /** One iteration, seen from the start of the tick; returns what it sends. */
    method VisitMidway(cfg: R.Config, ackSeq: nat, ghost t0: R.Table, ghost order: seq<nat>, ghost todo: set<nat>,
                       ghost sent: seq<nat>, ghost frames: seq<Output>)
      returns (ghost ids: seq<nat>, ghost out: seq<Output>)
      requires Valid() && cfg.Valid() && ackSeq in todo && 1 <= notifyMu
      requires Midway(cfg, t0, Table(), order, todo, sent, frames)
      modifies this`writeMsgQ, this`wire, this`notifyMu, this`toStats, this`expired, this`transmitted, owned
      ensures Valid() && notifyMu == old(notifyMu) && ackSeq in old(Table())
      ensures Midway(cfg, t0, Table(), order + [ackSeq], todo - {ackSeq}, sent + ids, frames + out)
      ensures Books() == Q.VisitBooks(cfg, old(Books()), ackSeq)
      ensures wire == old(wire) + out && toStats == old(toStats) + ids
    {
      MidwayStep(cfg, t0, Table(), order, todo, sent, frames, ackSeq);
      Q.VisitIsVisit(cfg, Books(), ackSeq);
      TableKeys();
      hide Midway, Table, R.Visit, R.Resends, PushFrame, Q.VisitBooks;
      ghost var body := Table()[ackSeq].body;
      ghost var again := Visit(cfg, ackSeq);
      ids, out := if again then [ackSeq] else [], if again then [Text(PushFrame(ackSeq, body, false))] else [];
      assert sent + [] == sent && frames + [] == frames;
    }

    /** The retransmission timer fires. The map is walked in an arbitrary order, while entries are counted down,
        deleted and sent again. The books are those of the protocol's visits in that order; the outcome is the
        order-free tick of the whole table, and the frames sent are those of `sent`, which holds every due message
        once. */
    method OnTick(cfg: R.Config) returns (ghost sent: seq<nat>, ghost order: seq<nat>)
      requires Valid() && cfg.Valid() && 1 <= notifyMu
      modifies this`writeMsgQ, this`wire, this`notifyMu, this`toStats, this`expired, this`transmitted, owned
      ensures Valid() && notifyMu == old(notifyMu) && Table() == R.TickTable(cfg, old(Table()))
      ensures R.IsOrder(order, old(Table()).Keys) && Books() == Q.SweepBooks(cfg, old(Books()), order)
      ensures multiset(sent) == multiset(R.Resent(cfg, old(Table())))
      ensures forall i :: 0 <= i < |sent| ==> sent[i] in old(Table())
      ensures wire == old(wire) + Resends(sent, old(Table()))
      ensures toStats == old(toStats) + sent
    {
      sent, order := [], [];
      ghost var b0 := Books();
      ghost var t0 := Table();
      ghost var frames: seq<Output> := [];
      var todo := writeMsgQ.Keys;
      TableKeys();
      MidwayStart(cfg, t0);
      hide Midway, Table, R.TickTable, R.Resent, Resends, Q.VisitBooks;
      while todo != {}
        invariant Valid() && notifyMu == old(notifyMu) && todo <= t0.Keys
        invariant Midway(cfg, t0, Table(), order, todo, sent, frames)
        invariant R.IsOrder(order, t0.Keys - todo) && Books() == Q.SweepBooks(cfg, b0, order)
        invariant wire == old(wire) + frames
        invariant toStats == old(toStats) + sent
        decreases todo
      {
        var ackSeq :| ackSeq in todo;
        ghost var ids, out := VisitMidway(cfg, ackSeq, t0, order, todo, sent, frames);
        Q.OneMoreVisited(cfg, b0, order, ackSeq, t0.Keys, todo);
        Assoc(old(wire), frames, out);
        Assoc(old(toStats), sent, ids);
        todo, order, sent, frames := todo - {ackSeq}, order + [ackSeq], sent + ids, frames + out;
      }
      MidwayEnd(cfg, t0, Table(), order, sent, frames);
    }
  }
}
