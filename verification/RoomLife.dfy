/** The life of the connections of a room: who is in the map, which channels are closed, and when the room
    loop would run into a closed channel. */
module RoomLife {
  import opened Messages
  import opened RoomModel
  import opened Sums

  /** The only way to reach a closed channel: an unregistration of a connection that was evicted before,
      handled while another connection holds the peer id. */
  predicate ClosesTwice(room: Room, ev: Event)
    requires Indexed(room) && Enabled(room, ev)
  {
    ev.Leave? && room.conns[ev.i].evicted && room.conns[ev.i].peer in room.members
  }

  lemma PanicExactly(room: Room, ev: Event, issued: seq<PushMsg>)
    requires RoomInv(room, issued) && Enabled(room, ev)
    ensures Step(room, ev).panicked <==> ClosesTwice(room, ev)
  {
    match ev
    case Leave(i) => assert ConnInv(room, issued, i);
    case Deliver(p) =>
      MemberIsRegistered(room, p, issued);
    case PeerSend(p, m) =>
      if p in room.members {
        MemberIsRegistered(room, p, issued);
      }
    case _ =>
  }

  lemma MemberIsRegistered(room: Room, p: PeerId, issued: seq<PushMsg>)
    requires RoomInv(room, issued) && p in room.members
    ensures var i := room.members[p];
      && i < |room.conns| && room.conns[i].peer == p && IsMember(room, i)
      && room.conns[i].Registered() && !room.conns[i].closed && !room.conns[i].evicted
  {
    assert ConnInv(room, issued, room.members[p]) && IsMember(room, room.members[p]);
  }

  // ---------------------------------------------------------------- the life of one connection

  /** The registration finds its peer id in the map, and replaces the entry. */
  predicate Replaces(room: Room, ev: Event) {
    ev.Join? && ev.i < |room.conns| && room.conns[ev.i].peer in room.members
  }

  /** A connection that nobody replaced: in the map and open while registered and not evicted; closed for good when
      its unregistration was handled. */
  predicate ConnLife(c: Conn) {
    && (c.Registered() && !c.evicted ==> c.left.None? && !c.closed)
    && (c.phase.Left? || c.phase.Gone? ==> c.closed && c.left.Some?)
  }

  predicate Lives(room: Room) {
    forall i :: 0 <= i < |room.conns| ==> ConnLife(room.conns[i])
  }

  lemma JoinKeepsLife(room: Room, i: nat, k: nat)
    requires Indexed(room) && Enabled(room, Join(i)) && !Replaces(room, Join(i)) && k < |room.conns|
    requires ConnLife(room.conns[k]) && LifeInv(room.conns[k], IsMember(room, k))
    ensures ConnLife(Register(room, i).conns[k])
  {
  }

  lemma LeaveKeepsLife(room: Room, i: nat, k: nat)
    requires MembersInv(room) && Enabled(room, Leave(i)) && k < |room.conns|
    requires ConnLife(room.conns[k]) && LifeInv(room.conns[k], IsMember(room, k))
    requires ConnLife(room.conns[i]) && LifeInv(room.conns[i], IsMember(room, i))
    ensures ConnLife(Unregister(room, i).conns[k])
  {
    if !room.conns[i].evicted {
      assert IsMember(room, i);
    }
  }

  lemma OthersKeepLife(room: Room, ev: Event, k: nat)
    requires MembersInv(room) && Enabled(room, ev) && !ev.Join? && !ev.Leave? && k < |room.conns|
    requires ConnLife(room.conns[k]) && LifeInv(room.conns[k], IsMember(room, k))
    ensures ConnLife(Step(room, ev).conns[k])
  {
    if ev.Deliver? {
      assert DeliverTo(room, ev.peer).conns[k] == room.conns[k] || k == room.members[ev.peer];
    }
  }

  /** A step that replaces nothing keeps the life of every connection, whatever ids are reused. */
  lemma StepKeepsLife(room: Room, ev: Event, issued: seq<PushMsg>)
    requires RoomInv(room, issued) && Lives(room) && Enabled(room, ev) && !Replaces(room, ev)
    ensures Lives(Step(room, ev))
  {
    StepKeepsPeers(room, ev);
    forall k | 0 <= k < |Step(room, ev).conns|
      ensures ConnLife(Step(room, ev).conns[k])
    {
      if k < |room.conns| {
        assert ConnInv(room, issued, k);
        if ev.Join? {
          JoinKeepsLife(room, ev.i, k);
        } else if ev.Leave? {
          assert ConnInv(room, issued, ev.i);
          LeaveKeepsLife(room, ev.i, k);
        } else {
          OthersKeepLife(room, ev, k);
        }
      }
    }
  }

  /** A registration that replaces an entry leaves a connection that is registered and not evicted outside the map,
      at once. */
  lemma ReplacedIsStranded(room: Room, i: nat, issued: seq<PushMsg>)
    requires RoomInv(room, issued) && Enabled(room, Join(i)) && Replaces(room, Join(i))
    ensures var r, j := Step(room, Join(i)), room.members[room.conns[i].peer];
      && j < |r.conns| && r.conns[j].Registered() && !r.conns[j].evicted && !IsMember(r, j)
  {
    MemberIsRegistered(room, room.conns[i].peer, issued);
    JoinKeepsPeers(room, i);
  }

  /** The history field counts the replacements. */
  lemma StepCountsReplacements(room: Room, ev: Event)
    requires Indexed(room) && Enabled(room, ev)
    ensures Step(room, ev).overwrites == room.overwrites + if Replaces(room, ev) then 1 else 0
  {
  }

  // ---------------------------------------------------------------- orderly reuse of ids

  /** An id is registered again only after the unregistration of the connection that had it before. */
  predicate Orderly(room: Room, ev: Event) {
    ev.Join? && ev.i < |room.conns| ==>
      forall j :: 0 <= j < |room.conns| && room.conns[j].peer == room.conns[ev.i].peer ==> !room.conns[j].Registered()
  }

  /** No two registered connections have the same id. */
  predicate Sole(room: Room) {
    && !room.panicked
    && forall i, j :: 0 <= i < j < |room.conns| && room.conns[i].peer == room.conns[j].peer ==>
         !room.conns[i].Registered() || !room.conns[j].Registered()
  }

  lemma OrderlyReplacesNothing(room: Room, ev: Event, issued: seq<PushMsg>)
    requires RoomInv(room, issued) && Enabled(room, ev) && Orderly(room, ev)
    ensures !Replaces(room, ev)
  {
    if Replaces(room, ev) {
      MemberIsRegistered(room, room.conns[ev.i].peer, issued);
      assert false;
    }
  }

  lemma RegisteredBefore(room: Room, ev: Event, k: nat)
    requires MembersInv(room) && Enabled(room, ev) && k < |room.conns|
    ensures k < |Step(room, ev).conns| && Step(room, ev).conns[k].peer == room.conns[k].peer
    ensures Step(room, ev).conns[k].Registered() ==> room.conns[k].Registered() || ev == Join(k)
  {
    StepKeepsPeers(room, ev);
    if ev.Join? {
      assert Register(room, ev.i).conns[k].phase == if k == ev.i then Joined else room.conns[k].phase;
    }
  }

  /** With orderly reuse no step touches a closed channel, and ids stay apart. */
  lemma StepKeepsSole(room: Room, ev: Event, issued: seq<PushMsg>)
    requires RoomInv(room, issued) && Sole(room) && Enabled(room, ev) && Orderly(room, ev)
    ensures Sole(Step(room, ev))
  {
    PanicExactly(room, ev, issued);
    if ClosesTwice(room, ev) {
      MemberIsRegistered(room, room.conns[ev.i].peer, issued);
      assert false;
    }
    StepKeepsPeers(room, ev);
    var r := Step(room, ev);
    forall i, j | 0 <= i < j < |r.conns| && r.conns[i].peer == r.conns[j].peer
      ensures !r.conns[i].Registered() || !r.conns[j].Registered()
    {
      RegisteredBefore(room, ev, i);
      if j < |room.conns| {
        RegisteredBefore(room, ev, j);
      }
      hide Step, Enabled, RoomInv;
    }
  }

  // ---------------------------------------------------------------- counting

  /** Registered at some time, with a channel that is still open. */
  function Serving(c: Conn): int { if !c.phase.Born? && !c.closed then 1 else 0 }

  function Counted(c: Conn): int { if c.phase.Active? || c.phase.Left? then 1 else 0 }

  /** How a step moves the number of peers that the handlers have counted. */
  function CountedDelta(ev: Event): int {
    if ev.CountIn? then 1 else if ev.CountOut? then -1 else 0
  }

  /** The sums over the connections follow the counters. */
  ghost predicate CountsMove(room: Room, ev: Event, r: Room) {
    && r.peercnt - room.peercnt == Total(r.conns, Serving) - Total(room.conns, Serving)
    && CountedDelta(ev) == Total(r.conns, Counted) - Total(room.conns, Counted)
  }

  /** One connection changes. */
  lemma OneMoves(room: Room, ev: Event, r: Room, i: nat, d: Conn)
    requires i < |room.conns| && r.conns == room.conns[i := d]
    requires r.peercnt - room.peercnt == Serving(d) - Serving(room.conns[i])
    requires CountedDelta(ev) == Counted(d) - Counted(room.conns[i])
    ensures CountsMove(room, ev, r)
  {
    TotalUpdate(room.conns, i, d, Serving);
    TotalUpdate(room.conns, i, d, Counted);
  }

  /** Losing its map entry changes nothing in the sums. */
  lemma DroppedWeighsNothing(conns: seq<Conn>, j: nat, at: int)
    requires j < |conns|
    ensures Total(conns[j := Dropped(conns[j], at)], Serving) == Total(conns, Serving)
    ensures Total(conns[j := Dropped(conns[j], at)], Counted) == Total(conns, Counted)
  {
    TotalUpdate(conns, j, Dropped(conns[j], at), Serving);
    TotalUpdate(conns, j, Dropped(conns[j], at), Counted);
  }

  lemma JoinMovesCounts(room: Room, i: nat, issued: seq<PushMsg>)
    requires RoomInv(room, issued) && Enabled(room, Join(i))
    ensures CountsMove(room, Join(i), Register(room, i))
  {
    assert ConnInv(room, issued, i);
    var p, at := room.conns[i].peer, |room.log|;
    var conns := room.conns;
    if p in room.members {
      DroppedWeighsNothing(conns, room.members[p], at);
      conns := conns[room.members[p] := Dropped(conns[room.members[p]], at)];
    }
    TotalUpdate(conns, i, Joining(conns[i], at), Serving);
    TotalUpdate(conns, i, Joining(conns[i], at), Counted);
    hide Total, RoomInv;
  }

  /** The entry of connection j is removed, and connection i is closed. */
  lemma ClosingMovesCounts(conns: seq<Conn>, i: nat, j: nat, at: int)
    requires i < |conns| && j < |conns| && conns[i].phase.Active? && !conns[i].closed
    ensures var dropped := conns[j := Dropped(conns[j], at)];
      && Total(dropped[i := Closing(dropped[i])], Serving) == Total(conns, Serving) - 1
      && Total(dropped[i := Closing(dropped[i])], Counted) == Total(conns, Counted)
  {
    DroppedWeighsNothing(conns, j, at);
    var dropped := conns[j := Dropped(conns[j], at)];
    hide Total;
    TotalUpdate(dropped, i, Closing(dropped[i]), Serving);
    TotalUpdate(dropped, i, Closing(dropped[i]), Counted);
  }

  lemma LeaveMovesCounts(room: Room, i: nat)
    requires MembersInv(room) && Enabled(room, Leave(i))
    ensures CountsMove(room, Leave(i), Unregister(room, i))
  {
    hide Total;
    var p := room.conns[i].peer;
    if p !in room.members {
      OneMoves(room, Leave(i), Unregister(room, i), i, Moved(room.conns[i], Left));
    } else if !room.conns[i].closed {
      ClosingMovesCounts(room.conns, i, room.members[p], |room.log|);
    }
  }

  lemma DeliverMovesCounts(room: Room, p: PeerId, issued: seq<PushMsg>)
    requires RoomInv(room, issued) && Enabled(room, Deliver(p))
    ensures CountsMove(room, Deliver(p), DeliverTo(room, p))
  {
    MemberIsRegistered(room, p, issued);
    var i := room.members[p];
    OneMoves(room, Deliver(p), DeliverTo(room, p), i, DeliverTo(room, p).conns[i]);
    hide CountsMove;
  }

  lemma OthersMoveCounts(room: Room, ev: Event, issued: seq<PushMsg>)
    requires RoomInv(room, issued) && Enabled(room, ev) && !ev.Join? && !ev.Leave? && !ev.Deliver?
    ensures CountsMove(room, ev, Step(room, ev))
  {
    match ev
    case Open(p) =>
      TotalAppend(room.conns, NewConn(p), Serving);
      TotalAppend(room.conns, NewConn(p), Counted);
    case CountIn(i) => OneMoves(room, ev, Step(room, ev), i, Moved(room.conns[i], Active));
    case CountOut(i) => OneMoves(room, ev, Step(room, ev), i, Moved(room.conns[i], Gone));
    case Take(i) => OneMoves(room, ev, Step(room, ev), i, Taken(room.conns[i]));
    case PeerSend(p, m) =>
      if p in room.members {
        MemberIsRegistered(room, p, issued);
        var i := room.members[p];
        OneMoves(room, ev, Step(room, ev), i, Accept(room.conns[i], m));
      }
    case _ =>
  }

  /** Every step moves a room's peer counter as it moves the number of connections that registered and are still
      open, and what the handlers count as it moves the number of those counted in and not out. */
  lemma StepMovesCounts(room: Room, ev: Event, issued: seq<PushMsg>)
    requires RoomInv(room, issued) && Enabled(room, ev)
    ensures CountsMove(room, ev, Step(room, ev))
  {
    match ev
    case Join(i) => JoinMovesCounts(room, i, issued);
    case Leave(i) => LeaveMovesCounts(room, i);
    case Deliver(p) => DeliverMovesCounts(room, p, issued);
    case _ => OthersMoveCounts(room, ev, issued);
  }
}
