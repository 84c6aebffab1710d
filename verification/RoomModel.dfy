/** One room and every connection ever opened for its peers, as a state machine. The room loop walks its
    connection map one delivery at a time, so that other goroutines can act between two deliveries. */
module RoomModel {
  import opened Messages

  const SEND_CAP := 4096
  const QUEUE_CAP := 4096
  const BURST := 10000

  /** Opened; in the room; counted in; unregistration handled by the room; counted out. */
  datatype Phase = Born | Joined | Active | Left | Gone

  /** A connection. The last four fields are history: was it evicted, what was ever put into its channel,
      and which stretch of the room's log it was in the map for. */
  datatype Conn = Conn(
    peer: PeerId,
    send: seq<PushMsg>,
    closed: bool,
    phase: Phase,
    evicted: bool,
    hist: seq<PushMsg>,
    start: nat,
    left: Option<int>)
  {
    predicate Registered() {
      phase.Joined? || phase.Active?
    }
  }

  /** Where the room loop is: at its select, or in the middle of a broadcast. */
  datatype Delivery = Idle | Delivering(msg: PushMsg, todo: set<PeerId>)

  /** A room; connections are named by their position in `conns`. The last two fields are history: the
      broadcasts received so far, and how many registrations replaced a map entry. */
  datatype Room = Room(
    members: map<PeerId, nat>,
    queue: seq<PushMsg>,
    delivery: Delivery,
    peercnt: int,
    tokens: nat,
    conns: seq<Conn>,
    panicked: bool,
    log: seq<PushMsg>,
    overwrites: nat)

  const EmptyRoom := Room(map[], [], Idle, 0, 0, [], false, [], 0)

  /** The atomic steps of the goroutines that touch the room. */
  datatype Event =
    | Open(peer: PeerId)              // a websocket handler creates a connection
    | Join(i: nat)                    // the loop receives from the register channel
    | CountIn(i: nat)                 // the handler counts the peer and starts the other goroutines
    | Leave(i: nat)                   // the loop receives from the unregister channel
    | CountOut(i: nat)                // the reader counts the peer out
    | Enqueue(m: PushMsg)             // a broadcaster sends into the room's channel
    | PeerSend(peer: PeerId, m: PushMsg) // a broadcaster looks a peer up and sends into its channel
    | Dequeue                         // the loop receives from its broadcast channel
    | Deliver(peer: PeerId)           // one iteration of the loop over the map
    | Done                            // the loop over the map ends
    | Tick                            // the rate limiter's ticker fires
    | Take(i: nat)                    // the connection's writer receives from its channel

  predicate Indexed(room: Room) {
    forall p :: p in room.members ==> room.members[p] < |room.conns|
  }

  predicate Enabled(room: Room, ev: Event)
    requires Indexed(room)
  {
    && !room.panicked
    && match ev
       case Open(_) => true
       case Join(i) => i < |room.conns| && room.conns[i].phase.Born? && room.delivery.Idle?
       case CountIn(i) => i < |room.conns| && room.conns[i].phase.Joined?
       case Leave(i) => i < |room.conns| && room.conns[i].phase.Active? && room.delivery.Idle?
       case CountOut(i) => i < |room.conns| && room.conns[i].phase.Left?
       case Enqueue(m) => |room.queue| < QUEUE_CAP
       case PeerSend(p, m) =>
         p in room.members ==>
           var c := room.conns[room.members[p]]; c.closed || |c.send| < SEND_CAP
       case Dequeue => room.delivery.Idle? && room.queue != []
       case Deliver(p) =>
         room.delivery.Delivering? && p in room.delivery.todo && p in room.members && 1 <= room.tokens
       case Done => room.delivery.Delivering? && room.delivery.todo == {}
       case Tick => true
       case Take(i) => i < |room.conns| && room.conns[i].send != []
  }

  function NewConn(peer: PeerId): Conn {
    Conn(peer, [], false, Born, false, [], 0, None)
  }

  function Accept(c: Conn, m: PushMsg): Conn {
    c.(send := c.send + [m], hist := c.hist + [m])
  }

  function Joining(c: Conn, at: nat): Conn {
    c.(phase := Joined, start := at)
  }

  /** The map entry of the connection is removed or replaced. */
  function Dropped(c: Conn, at: int): Conn {
    c.(left := Some(at))
  }

  function Closing(c: Conn): Conn {
    c.(closed := true, phase := Left)
  }

  function Evicted(c: Conn, at: int): Conn {
    c.(closed := true, evicted := true, left := Some(at))
  }

  function Moved(c: Conn, phase: Phase): Conn {
    c.(phase := phase)
  }

  function Taken(c: Conn): Conn
    requires c.send != []
  {
    c.(send := c.send[1..])
  }

  function Register(room: Room, i: nat): Room
    requires Indexed(room) && i < |room.conns|
  {
    var p := room.conns[i].peer;
    var hit := p in room.members;
    var conns := if hit then room.conns[room.members[p] := Dropped(room.conns[room.members[p]], |room.log|)]
                 else room.conns;
    room.(members := room.members[p := i],
          peercnt := room.peercnt + 1,
          overwrites := room.overwrites + if hit then 1 else 0,
          conns := conns[i := Joining(conns[i], |room.log|)])
  }

  function Unregister(room: Room, i: nat): Room
    requires Indexed(room) && i < |room.conns|
  {
    var p := room.conns[i].peer;
    if p !in room.members then
      room.(conns := room.conns[i := Moved(room.conns[i], Left)])
    else if room.conns[i].closed then
      room.(panicked := true)  // close of a closed channel
    else
      var j := room.members[p];
      var conns := room.conns[j := Dropped(room.conns[j], |room.log|)];
      room.(members := room.members - {p},
            peercnt := room.peercnt - 1,
            conns := conns[i := Closing(conns[i])])
  }

  /** The select with a default branch: send m to connection i, or, when its channel is full, evict it. */
  function Offer(room: Room, i: nat, m: PushMsg): Room
    requires i < |room.conns|
  {
    var c := room.conns[i];
    if c.closed then
      room.(panicked := true)  // send on a closed channel
    else if |c.send| < SEND_CAP then
      room.(conns := room.conns[i := Accept(c, m)])
    else
      room.(members := room.members - {c.peer},
            peercnt := room.peercnt - 1,
            conns := room.conns[i := Evicted(c, |room.log| - 1)])
  }

  function Spend(room: Room, p: PeerId): Room
    requires 1 <= room.tokens && room.delivery.Delivering?
  {
    room.(tokens := room.tokens - 1, delivery := room.delivery.(todo := room.delivery.todo - {p}))
  }

  function DeliverTo(room: Room, p: PeerId): Room
    requires Indexed(room) && Enabled(room, Deliver(p))
  {
    Offer(Spend(room, p), room.members[p], room.delivery.msg)
  }

  function SendToPeer(room: Room, p: PeerId, m: PushMsg): Room
    requires Indexed(room)
  {
    if p !in room.members then room
    else
      var i := room.members[p];
      if room.conns[i].closed then room.(panicked := true)  // send on a closed channel
      else room.(conns := room.conns[i := Accept(room.conns[i], m)])
  }

  function Step(room: Room, ev: Event): Room
    requires Indexed(room) && Enabled(room, ev)
  {
    match ev
    case Open(p) => room.(conns := room.conns + [NewConn(p)])
    case Join(i) => Register(room, i)
    case CountIn(i) => room.(conns := room.conns[i := Moved(room.conns[i], Active)])
    case Leave(i) => Unregister(room, i)
    case CountOut(i) => room.(conns := room.conns[i := Moved(room.conns[i], Gone)])
    case Enqueue(m) => room.(queue := room.queue + [m])
    case PeerSend(p, m) => SendToPeer(room, p, m)
    case Dequeue =>
      room.(queue := room.queue[1..], log := room.log + [room.queue[0]],
            delivery := Delivering(room.queue[0], room.members.Keys))
    case Deliver(p) => DeliverTo(room, p)
    case Done => room.(delivery := Idle)
    case Tick => room.(tokens := if room.tokens < BURST then room.tokens + 1 else room.tokens)
    case Take(i) => room.(conns := room.conns[i := Taken(room.conns[i])])
  }

  // ---------------------------------------------------------------- the invariant of a room

  predicate IsMember(room: Room, i: nat)
    requires i < |room.conns|
  {
    room.conns[i].peer in room.members && room.members[room.conns[i].peer] == i
  }

  /** The broadcast in progress has not come to connection i yet. */
  predicate IsPending(room: Room, i: nat)
    requires i < |room.conns|
  {
    IsMember(room, i) && room.delivery.Delivering? && room.conns[i].peer in room.delivery.todo
  }

  ghost predicate MembersInv(room: Room) {
    forall p :: p in room.members ==>
      room.members[p] < |room.conns| && room.conns[room.members[p]].peer == p
  }

  /** Everything that is or was in the room's channel: whole-room messages in the order of their ids. */
  ghost predicate LogInv(room: Room, issued: seq<PushMsg>) {
    && Ordered(room.log + room.queue) && Genuine(room.log + room.queue, issued)
    && (forall k :: 0 <= k < |room.log| ==> room.log[k].isBrAll)
    && (forall k :: 0 <= k < |room.queue| ==> room.queue[k].isBrAll)
    && |room.queue| <= QUEUE_CAP
    && (room.delivery.Delivering? ==>
          && room.log != [] && room.log[|room.log| - 1] == room.delivery.msg
          && room.delivery.todo <= room.members.Keys)
  }

  ghost predicate CountInv(room: Room) {
    && room.peercnt == |room.members| + room.overwrites
    && room.tokens <= BURST
  }

  /** The channel of a connection: bounded, and the part of its history not yet taken. */
  ghost predicate ChannelInv(c: Conn) {
    && |c.send| <= SEND_CAP && |c.send| <= |c.hist|
    && c.hist[|c.hist| - |c.send|..] == c.send
  }

  ghost predicate PeerOrderInv(c: Conn, issued: seq<PushMsg>) {
    Ordered(PeerPart(c.hist)) && Genuine(PeerPart(c.hist), issued)
  }

  /** The end of the stretch of the log that a connection has been offered so far. */
  function EndOf(c: Conn, pending: bool, log: seq<PushMsg>): int {
    match c.left
    case Some(e) => e
    case None => |log| - if pending then 1 else 0
  }

  /** What a connection accepted from its room is one contiguous slice of the room's log. */
  ghost predicate SliceInv(c: Conn, pending: bool, log: seq<PushMsg>) {
    if c.phase.Born? then c.hist == []
    else
      && c.start <= EndOf(c, pending, log) <= |log|
      && RoomPart(c.hist) == log[c.start..EndOf(c, pending, log)]
  }

  predicate LifeInv(c: Conn, member: bool) {
    && (member <==> !c.phase.Born? && c.left.None?)
    && (member ==> c.Registered() && !c.closed)
    && (c.phase.Born? ==> !c.closed && c.left.None?)
    && (c.evicted ==> c.closed && c.left.Some? && SEND_CAP <= |c.hist|)
    && (c.closed && !c.evicted ==> c.phase.Left? || c.phase.Gone?)
  }

  ghost predicate ConnOk(c: Conn, member: bool, pending: bool, log: seq<PushMsg>, issued: seq<PushMsg>) {
    && ChannelInv(c) && PeerOrderInv(c, issued) && SliceInv(c, pending, log) && LifeInv(c, member)
    && (pending ==> member && log != [])
  }

  ghost predicate ConnInv(room: Room, issued: seq<PushMsg>, i: nat)
    requires i < |room.conns|
  {
    ConnOk(room.conns[i], IsMember(room, i), IsPending(room, i), room.log, issued)
  }

  ghost predicate RoomInv(room: Room, issued: seq<PushMsg>) {
    && MembersInv(room) && LogInv(room, issued) && CountInv(room)
    && forall i :: 0 <= i < |room.conns| ==> ConnInv(room, issued, i)
  }

  /** A message handed to the room is the newest one, and addressed the way its sender does it. */
  predicate Fits(ev: Event, issued: seq<PushMsg>) {
    match ev
    case Enqueue(m) => m.isBrAll && IsNewest(m, issued)
    case PeerSend(_, m) => !m.isBrAll && IsNewest(m, issued)
    case _ => true
  }

  // ---------------------------------------------------------------- each step keeps it

  lemma SizeOfUpdate(m: map<PeerId, nat>, p: PeerId, i: nat)
    ensures |m[p := i]| == |m| + if p in m then 0 else 1
    ensures |m - {p}| == |m| - if p in m then 1 else 0
  {
    assert m[p := i].Keys == m.Keys + {p};
    assert (m - {p}).Keys == m.Keys - {p};
  }

  lemma JoinKeepsPeers(room: Room, i: nat)
    requires MembersInv(room) && i < |room.conns|
    ensures var r := Register(room, i);
      && |r.conns| == |room.conns| && r.members == room.members[room.conns[i].peer := i]
      && forall k :: 0 <= k < |r.conns| ==> r.conns[k].peer == room.conns[k].peer
  {
  }

  lemma JoinKeepsCount(room: Room, i: nat)
    requires MembersInv(room) && CountInv(room) && i < |room.conns|
    ensures CountInv(Register(room, i))
  {
    SizeOfUpdate(room.members, room.conns[i].peer, i);
    hide Joining, Dropped;
  }

  lemma JoinKeepsMembers(room: Room, i: nat)
    requires MembersInv(room) && CountInv(room) && Enabled(room, Join(i))
    ensures MembersInv(Register(room, i)) && CountInv(Register(room, i))
  {
    JoinKeepsPeers(room, i);
    JoinKeepsCount(room, i);
    hide Register, CountInv;
  }

  lemma LeaveKeepsPeers(room: Room, i: nat)
    requires MembersInv(room) && i < |room.conns|
    ensures var r := Unregister(room, i);
      && |r.conns| == |room.conns| && (forall j :: 0 <= j < |room.conns| ==> r.conns[j].peer == room.conns[j].peer)
      && (forall p :: p in r.members ==> p in room.members && r.members[p] == room.members[p])
      && r.tokens == room.tokens && r.overwrites == room.overwrites
      && ((r.members == room.members && r.peercnt == room.peercnt)
          || (room.conns[i].peer in room.members && r.members == room.members - {room.conns[i].peer} && r.peercnt == room.peercnt - 1))
  {
  }

  lemma LeaveKeepsCount(room: Room, i: nat)
    requires MembersInv(room) && CountInv(room) && i < |room.conns|
    ensures CountInv(Unregister(room, i))
  {
    LeaveKeepsPeers(room, i);
    SizeOfUpdate(room.members, room.conns[i].peer, i);
    hide Unregister, MembersInv;
  }

  lemma LeaveKeepsMembers(room: Room, i: nat)
    requires MembersInv(room) && CountInv(room) && Enabled(room, Leave(i))
    ensures MembersInv(Unregister(room, i)) && CountInv(Unregister(room, i))
  {
    LeaveKeepsPeers(room, i);
    LeaveKeepsCount(room, i);
    hide Unregister, CountInv;
  }

  lemma DeliverKeepsMembers(room: Room, p: PeerId)
    requires MembersInv(room) && CountInv(room) && Enabled(room, Deliver(p))
    ensures MembersInv(DeliverTo(room, p)) && CountInv(DeliverTo(room, p))
  {
    SizeOfUpdate(room.members, p, 0);
  }

  lemma StepKeepsMembers(room: Room, ev: Event)
    requires MembersInv(room) && CountInv(room) && Enabled(room, ev)
    ensures MembersInv(Step(room, ev)) && CountInv(Step(room, ev))
  {
    match ev
    case Join(i) => JoinKeepsMembers(room, i);
    case Leave(i) => LeaveKeepsMembers(room, i);
    case Deliver(p) => DeliverKeepsMembers(room, p);
    case _ =>
  }

  lemma StepKeepsLog(room: Room, ev: Event, issued: seq<PushMsg>)
    requires MembersInv(room) && LogInv(room, issued) && Enabled(room, ev) && Fits(ev, issued)
    ensures LogInv(Step(room, ev), issued)
  {
    if ev.Enqueue? {
      EnqueueKeepsLog(room, ev.m, issued);
    } else if ev.Dequeue? {
      assert (room.log + [room.queue[0]]) + room.queue[1..] == room.log + room.queue;
      hide Ordered, Genuine;
    } else {
      assert Step(room, ev).log == room.log && Step(room, ev).queue == room.queue;
      hide Ordered, Genuine;
    }
  }

  lemma EnqueueKeepsLog(room: Room, m: PushMsg, issued: seq<PushMsg>)
    requires Indexed(room) && LogInv(room, issued) && Enabled(room, Enqueue(m)) && Fits(Enqueue(m), issued)
    ensures LogInv(Step(room, Enqueue(m)), issued)
  {
    AppendNewest(room.log + room.queue, m, issued);
    assert room.log + (room.queue + [m]) == room.log + room.queue + [m];
    hide Ordered, Genuine, IsNewest;
  }

  // What each step does to one connection.

  lemma JoiningOk(c: Conn, log: seq<PushMsg>, issued: seq<PushMsg>)
    requires ConnOk(c, false, false, log, issued) && c.phase.Born?
    ensures ConnOk(Joining(c, |log|), true, false, log, issued)
  {
    assert log[|log|..|log|] == [] == RoomPart([]);
  }

  lemma DroppedOk(c: Conn, log: seq<PushMsg>, issued: seq<PushMsg>)
    requires ConnOk(c, true, false, log, issued)
    ensures ConnOk(Dropped(c, |log|), false, false, log, issued)
  {
  }

  lemma ClosingOk(c: Conn, log: seq<PushMsg>, issued: seq<PushMsg>)
    requires ConnOk(c, false, false, log, issued) && !c.phase.Born?
    ensures ConnOk(Closing(c), false, false, log, issued)
  {
    assert Closing(c).hist == c.hist && Closing(c).start == c.start && Closing(c).left == c.left;
  }

  lemma AcceptRoomOk(c: Conn, m: PushMsg, log: seq<PushMsg>, issued: seq<PushMsg>)
    requires ConnOk(c, true, true, log, issued) && |c.send| < SEND_CAP
    requires m.isBrAll && m == log[|log| - 1]
    ensures ConnOk(Accept(c, m), true, false, log, issued)
  {
    PartsOfAppend(c.hist, m);
    hide Ordered, Genuine, RoomPart, PeerPart;
    assert ChannelInv(Accept(c, m));
    assert log[c.start..|log| - 1] + [m] == log[c.start..|log|];
  }

  lemma AcceptKeepsChannel(c: Conn, m: PushMsg)
    requires ChannelInv(c) && |c.send| < SEND_CAP
    ensures ChannelInv(Accept(c, m))
  {
    assert (c.hist + [m])[|c.hist| - |c.send|..] == c.hist[|c.hist| - |c.send|..] + [m];
  }

  lemma AcceptKeepsPeerOrder(c: Conn, m: PushMsg, issued: seq<PushMsg>)
    requires PeerOrderInv(c, issued) && !m.isBrAll && IsNewest(m, issued)
    ensures PeerOrderInv(Accept(c, m), issued)
  {
    PartsOfAppend(c.hist, m);
    AppendNewest(PeerPart(c.hist), m, issued);
    hide Ordered, Genuine, PeerPart, IsNewest;
  }

  lemma AcceptPeerOk(c: Conn, pending: bool, m: PushMsg, log: seq<PushMsg>, issued: seq<PushMsg>)
    requires ConnOk(c, true, pending, log, issued) && |c.send| < SEND_CAP
    requires !m.isBrAll && IsNewest(m, issued)
    ensures ConnOk(Accept(c, m), true, pending, log, issued)
  {
    PartsOfAppend(c.hist, m);
    AcceptKeepsChannel(c, m);
    AcceptKeepsPeerOrder(c, m, issued);
    hide RoomPart, PeerPart, IsNewest, ChannelInv, PeerOrderInv;
  }

  lemma EvictedOk(c: Conn, log: seq<PushMsg>, issued: seq<PushMsg>)
    requires ConnOk(c, true, true, log, issued) && SEND_CAP <= |c.send|
    ensures ConnOk(Evicted(c, |log| - 1), false, false, log, issued)
  {
    assert Evicted(c, |log| - 1).hist == c.hist;
  }

  lemma DequeueOk(c: Conn, member: bool, m: PushMsg, log: seq<PushMsg>, issued: seq<PushMsg>)
    requires ConnOk(c, member, false, log, issued)
    ensures ConnOk(c, member, member, log + [m], issued)
  {
    if !c.phase.Born? {
      var e := EndOf(c, false, log);
      assert (log + [m])[c.start..e] == log[c.start..e];
    }
  }

  lemma TakenOk(c: Conn, member: bool, pending: bool, log: seq<PushMsg>, issued: seq<PushMsg>)
    requires ConnOk(c, member, pending, log, issued) && c.send != []
    ensures ConnOk(Taken(c), member, pending, log, issued)
  {
    assert Taken(c).hist == c.hist;
    assert c.hist[|c.hist| - |c.send| + 1..] == c.send[1..];
  }

  lemma MovedOk(c: Conn, to: Phase, member: bool, pending: bool, log: seq<PushMsg>, issued: seq<PushMsg>)
    requires ConnOk(c, member, pending, log, issued)
    requires (c.phase.Joined? && to.Active?) || (c.phase.Active? && !member && to.Left?) || (c.phase.Left? && to.Gone?)
    ensures ConnOk(Moved(c, to), member, pending, log, issued)
  {
    assert Moved(c, to).hist == c.hist;
  }

  lemma JoinKeepsConn(room: Room, issued: seq<PushMsg>, i: nat, k: nat)
    requires MembersInv(room) && Enabled(room, Join(i)) && k < |room.conns|
    requires ConnInv(room, issued, k)
    ensures ConnInv(Register(room, i), issued, k)
  {
    var r, c, p := Register(room, i), room.conns[k], room.conns[i].peer;
    assert IsMember(r, k) <==> k == i || (IsMember(room, k) && c.peer != p);
    if k == i {
      JoiningOk(c, room.log, issued);
    } else if IsMember(room, k) && c.peer == p {
      DroppedOk(c, room.log, issued);
    }
  }

  lemma LeaveKeepsConn(room: Room, issued: seq<PushMsg>, i: nat, k: nat)
    requires MembersInv(room) && Enabled(room, Leave(i)) && k < |room.conns|
    requires ConnInv(room, issued, k)
    ensures ConnInv(Unregister(room, i), issued, k)
  {
    var r, c, p := Unregister(room, i), room.conns[k], room.conns[i].peer;
    assert r.panicked || (IsMember(r, k) <==> IsMember(room, k) && c.peer != p);
    if !r.panicked {
      if IsMember(room, k) && c.peer == p {
        DroppedOk(c, room.log, issued);
        if k == i {
          ClosingOk(Dropped(c, |room.log|), room.log, issued);
        }
      } else if k == i {
        if p in room.members {
          ClosingOk(c, room.log, issued);
        } else {
          MovedOk(c, Left, false, false, room.log, issued);
        }
      }
    }
  }

  /** What one delivery does to the places in the map. */
  lemma DeliverMoves(room: Room, issued: seq<PushMsg>, p: PeerId, k: nat)
    requires MembersInv(room) && Enabled(room, Deliver(p)) && k < |room.conns|
    requires ConnInv(room, issued, room.members[p])
    ensures var r, i := DeliverTo(room, p), room.members[p];
      var fits := |room.conns[i].send| < SEND_CAP;
      && !r.panicked && r.log == room.log
      && r.conns[k] == (if k != i then room.conns[k]
                        else if fits then Accept(room.conns[k], room.delivery.msg)
                        else Evicted(room.conns[k], |room.log| - 1))
      && (IsMember(r, k) <==> IsMember(room, k) && (fits || k != i))
      && (IsPending(r, k) <==> IsPending(room, k) && k != i)
  {
    var r, i := DeliverTo(room, p), room.members[p];
    assert IsMember(room, i);
    assert r.delivery == Delivering(room.delivery.msg, room.delivery.todo - {p});
    assert r.conns[k].peer == room.conns[k].peer;
    if room.conns[k].peer == p {
      assert k == i <==> IsMember(room, k);
    } else {
      assert k != i;
      assert IsMember(r, k) <==> IsMember(room, k);
    }
  }

  lemma DeliverKeepsConn(room: Room, issued: seq<PushMsg>, p: PeerId, k: nat)
    requires MembersInv(room) && LogInv(room, issued) && Enabled(room, Deliver(p)) && k < |room.conns|
    requires ConnInv(room, issued, room.members[p]) && ConnInv(room, issued, k)
    ensures ConnInv(DeliverTo(room, p), issued, k)
  {
    DeliverMoves(room, issued, p, k);
    hide ConnOk, DeliverTo;
    var r, c := DeliverTo(room, p), room.conns[k];
    if k != room.members[p] {
      assert ConnOk(r.conns[k], IsMember(r, k), IsPending(r, k), r.log, issued);
    } else {
      assert IsPending(room, k);
      if |c.send| < SEND_CAP {
        AcceptRoomOk(c, room.delivery.msg, room.log, issued);
      } else {
        EvictedOk(c, room.log, issued);
      }
    }
  }

  lemma PeerSendKeepsConn(room: Room, issued: seq<PushMsg>, p: PeerId, m: PushMsg, k: nat)
    requires MembersInv(room) && Enabled(room, PeerSend(p, m)) && Fits(PeerSend(p, m), issued) && k < |room.conns|
    requires ConnInv(room, issued, k)
    ensures ConnInv(SendToPeer(room, p, m), issued, k)
  {
    var r := SendToPeer(room, p, m);
    assert IsMember(r, k) <==> IsMember(room, k);
    if p in room.members && room.members[p] == k {
      AcceptPeerOk(room.conns[k], IsPending(room, k), m, room.log, issued);
    }
  }

  lemma DequeueKeepsConn(room: Room, issued: seq<PushMsg>, k: nat)
    requires MembersInv(room) && Enabled(room, Dequeue) && k < |room.conns|
    requires ConnInv(room, issued, k)
    ensures ConnInv(Step(room, Dequeue), issued, k)
  {
    var r := Step(room, Dequeue);
    assert IsPending(r, k) <==> IsMember(room, k);
    DequeueOk(room.conns[k], IsMember(room, k), room.queue[0], room.log, issued);
  }

  predicate Quiet(ev: Event) {
    ev.Open? || ev.CountIn? || ev.CountOut? || ev.Enqueue? || ev.Done? || ev.Tick? || ev.Take?
  }

  lemma QuietKeepsConn(room: Room, issued: seq<PushMsg>, ev: Event, k: nat)
    requires MembersInv(room) && Enabled(room, ev) && Quiet(ev) && k < |room.conns|
    requires ConnInv(room, issued, k)
    ensures ConnInv(Step(room, ev), issued, k)
  {
    var r, c := Step(room, ev), room.conns[k];
    var member, pending := IsMember(room, k), IsPending(room, k);
    assert r.conns[k].peer == c.peer && IsMember(r, k) == member && IsPending(r, k) == pending;
    match ev
    case CountIn(i) =>
      if i == k {
        MovedOk(c, Active, member, pending, room.log, issued);
      }
    case CountOut(i) =>
      if i == k {
        MovedOk(c, Gone, member, pending, room.log, issued);
      }
    case Take(i) =>
      if i == k {
        TakenOk(c, member, pending, room.log, issued);
      }
    case _ =>
  }

  lemma NewConnOk(room: Room, issued: seq<PushMsg>, peer: PeerId)
    requires MembersInv(room) && Enabled(room, Open(peer))
    ensures ConnInv(Step(room, Open(peer)), issued, |room.conns|)
  {
    assert PeerPart([]) == [];
  }

  lemma StepKeepsConn(room: Room, ev: Event, issued: seq<PushMsg>, k: nat)
    requires RoomInv(room, issued) && Enabled(room, ev) && Fits(ev, issued) && k < |Step(room, ev).conns|
    ensures ConnInv(Step(room, ev), issued, k)
  {
    match ev
    case Join(i) => JoinKeepsConn(room, issued, i, k);
    case Leave(i) => LeaveKeepsConn(room, issued, i, k);
    case Deliver(p) => DeliverKeepsConn(room, issued, p, k);
    case PeerSend(p, m) => PeerSendKeepsConn(room, issued, p, m, k);
    case Dequeue => DequeueKeepsConn(room, issued, k);
    case Open(p) =>
      if k < |room.conns| {
        QuietKeepsConn(room, issued, ev, k);
      } else {
        NewConnOk(room, issued, p);
      }
    case _ => QuietKeepsConn(room, issued, ev, k);
  }

  /** Connections are only ever added, and keep their peer. */
  lemma StepKeepsPeers(room: Room, ev: Event)
    requires MembersInv(room) && Enabled(room, ev)
    ensures |Step(room, ev).conns| == |room.conns| + if ev.Open? then 1 else 0
    ensures forall i :: 0 <= i < |room.conns| ==> Step(room, ev).conns[i].peer == room.conns[i].peer
    ensures ev.Open? ==> Step(room, ev).conns[|room.conns|].peer == ev.peer
  {
    match ev
    case Join(i) => assert |Register(room, i).conns| == |room.conns|;
    case Leave(i) => assert |Unregister(room, i).conns| == |room.conns|;
    case Deliver(p) => assert |DeliverTo(room, p).conns| == |room.conns|;
    case _ =>
  }

  lemma StepKeepsRoom(room: Room, ev: Event, issued: seq<PushMsg>)
    requires RoomInv(room, issued) && Enabled(room, ev) && Fits(ev, issued)
    ensures RoomInv(Step(room, ev), issued)
  {
    StepKeepsMembers(room, ev);
    StepKeepsLog(room, ev, issued);
    forall k | 0 <= k < |Step(room, ev).conns|
      ensures ConnInv(Step(room, ev), issued, k)
    {
      StepKeepsConn(room, ev, issued, k);
    }
  }
}
