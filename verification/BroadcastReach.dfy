/** A finished broadcast is in the log or the channel of every room it was aimed at, as often as it was aimed there. */
module BroadcastReach {
  import opened Messages
  import M = RoomModel
  import L = RoomLife
  import opened HubSystem
  import opened HubTheorems
  import opened HubLifecycle
  import F = FlatIndex

  /** How often a room has received the message or will receive it from its channel. */
  function Copies(room: M.Room, m: PushMsg): nat {
    multiset(room.log + room.queue)[m]
  }

  function Times(rooms: seq<nat>, r: nat): nat {
    multiset(rooms)[r]
  }

  /** How often the call names room r. */
  function Aimed(targets: Targets, r: nat): nat {
    match targets
    case AllRooms => 1
    case SomeRooms(ids) => Times(ids, r)
    case SomePeers(_) => 0
  }

  predicate ReachAt(s: Hub, b: Broadcaster, r: nat)
    requires r < |s.rooms|
  {
    && (b.stage.Numbered? || b.stage.ToPeers? ==> Copies(s.rooms[r], b.stage.msg) == 0)
    && (b.stage.ToRooms? ==> Copies(s.rooms[r], b.stage.msg) + Times(b.stage.rooms, r) == Aimed(b.targets, r))
    && (b.stage.Sized? ==> Copies(s.rooms[r], b.stage.msg) == Aimed(b.targets, r))
  }

  ghost predicate ReachOk(s: Hub, b: Broadcaster) {
    forall r :: 0 <= r < |s.rooms| ==> ReachAt(s, b, r)
  }

  ghost predicate ReachInv(s: Hub) {
    forall k :: 0 <= k < |s.broadcasters| ==> ReachOk(s, s.broadcasters[k])
  }

  lemma RoomStepAppends(room: M.Room, ev: M.Event)
    requires M.Indexed(room) && M.Enabled(room, ev)
    ensures M.Step(room, ev).log + M.Step(room, ev).queue == room.log + room.queue + if ev.Enqueue? then [ev.m] else []
  {
    var t := M.Step(room, ev);
    if ev.Enqueue? {
      assert room.log + (room.queue + [ev.m]) == (room.log + room.queue) + [ev.m];
    } else if ev.Dequeue? {
      assert room.log + [room.queue[0]] + room.queue[1..] == room.log + room.queue;
    } else {
      assert t.log == room.log && t.queue == room.queue;
      assert room.log + room.queue + [] == room.log + room.queue;
    }
  }

  lemma RoomStepCopies(room: M.Room, ev: M.Event, m: PushMsg)
    requires M.Indexed(room) && M.Enabled(room, ev)
    ensures Copies(M.Step(room, ev), m) == Copies(room, m) + if ev.Enqueue? && ev.m == m then 1 else 0
  {
    RoomStepAppends(room, ev);
    hide M.Step, M.Enabled, M.Indexed;
  }

  lemma PermutationOnce(order: seq<nat>, n: nat, r: nat)
    requires IsPermutation(order, n) && r < n
    ensures Times(order, r) == 1
  {
    assert r in order;
    var i :| 0 <= i < |order| && order[i] == r;
    assert order == order[..i] + [r] + order[i + 1..];
    assert r !in order[..i] && r !in order[i + 1..];
    assert multiset(order) == multiset(order[..i]) + multiset{r} + multiset(order[i + 1..]);
  }

  /** How a step changes the number of copies of a message. */
  lemma StepCopies(home: PeerId -> nat, s: Hub, e: Event, r: nat, m: PushMsg)
    requires Enabled(home, s, e) && r < |s.rooms|
    ensures |Step(home, s, e).rooms| == |s.rooms|
    ensures Copies(Step(home, s, e).rooms[r], m) == Copies(s.rooms[r], m)
              + if e.RoomSend? && s.broadcasters[e.k].stage.rooms[0] == r && s.broadcasters[e.k].stage.msg == m then 1 else 0
  {
    StepIsRoomStep(home, s, e);
    StepKeepsRoomCount(home, s, e);
    var re := RoomEvent(home, s, e);
    assert re.Some? && re.value.1.Enqueue? ==> e.RoomSend?;
    hide Step, Copies, M.Step;
    if re.Some? && re.value.0 == r {
      RoomStepCopies(s.rooms[r], re.value.1, m);
    }
  }

  /** A message that was not numbered yet is nowhere. */
  lemma NewMessageIsNowhere(home: PeerId -> nat, s: Hub, r: nat, m: PushMsg)
    requires Inv(home, s) && r < |s.rooms| && s.counter < m.id
    ensures Copies(s.rooms[r], m) == 0
  {
    var room := s.rooms[r];
    assert M.LogInv(room, s.issued);
    assert m !in room.log + room.queue;
  }

  /** A broadcaster that does not move, while somebody else does. */
  lemma OthersKeepReach(home: PeerId -> nat, s: Hub, e: Event, k: nat, r: nat)
    requires Inv(home, s) && Enabled(home, s, e) && k < |s.broadcasters| && r < |s.rooms| && r < |Step(home, s, e).rooms|
    requires e.Spawn? || e.Local? || e.k != k
    requires s.broadcasters[k].stage.HasMessage() && ReachAt(s, s.broadcasters[k], r)
    ensures ReachAt(Step(home, s, e), s.broadcasters[k], r)
  {
    StepCopies(home, s, e, r, s.broadcasters[k].stage.msg);
    if e.RoomSend? {
      AtMostOneInside(s, k, e.k);
    }
    hide Copies, Inv, Step, Times, Aimed, M.Step, M.Enabled, M.Indexed;
  }

  /** A new number. */
  lemma NumberKeepsReach(home: PeerId -> nat, s: Hub, k: nat, r: nat)
    requires Inv(home, s) && Enabled(home, s, Number(k)) && r < |s.rooms|
    ensures var t := Step(home, s, Number(k)); r < |t.rooms| && ReachAt(t, t.broadcasters[k], r)
  {
    var t := Step(home, s, Number(k));
    NewMessageIsNowhere(home, s, r, t.broadcasters[k].stage.msg);
    hide Copies, Inv, M.Step, M.Enabled, M.Indexed;
  }

  lemma StepKeepsReach(home: PeerId -> nat, s: Hub, e: Event, k: nat, r: nat)
    requires Inv(home, s) && ReachInv(s) && Enabled(home, s, e)
    requires k < |Step(home, s, e).broadcasters| && r < |Step(home, s, e).rooms|
    requires Step(home, s, e).broadcasters[k].stage.HasMessage()
    ensures ReachAt(Step(home, s, e), Step(home, s, e).broadcasters[k], r)
  {
    StepKeepsRoomCount(home, s, e);
    StepMoves(home, s, e);
    if k < |s.broadcasters| {
      assert ReachOk(s, s.broadcasters[k]);
      assert ReachAt(s, s.broadcasters[k], r);
      hide ReachInv, ReachAt, ReachOk, Inv, Step, M.Step, M.Enabled, M.Indexed;
      if e.Spawn? || e.Local? || e.k != k {
        OthersKeepReach(home, s, e, k, r);
      } else if e.Number? {
        NumberKeepsReach(home, s, k, r);
      } else {
        OwnStep(home, s, e, r);
      }
    }
  }

  /** The steps of the broadcaster that has the message. */
  lemma OwnStep(home: PeerId -> nat, s: Hub, e: Event, r: nat)
    requires Inv(home, s) && Enabled(home, s, e) && r < |s.rooms| && r < |Step(home, s, e).rooms|
    requires e.Record? || e.RoomSend? || e.PeerSend? || e.AddSize? || e.Release?
    requires ReachAt(s, s.broadcasters[e.k], r)
    ensures ReachAt(Step(home, s, e), Step(home, s, e).broadcasters[e.k], r)
  {
    if e.Record? {
      RecordKeepsReach(home, s, e.k, e.order, r);
    } else if e.RoomSend? {
      RoomSendKeepsReach(home, s, e.k, r);
    } else {
      LaterStepKeepsReach(home, s, e, r);
    }
    hide ReachAt, Enabled, Step, Inv;
  }

  /** How the steps of a broadcaster that send to no room move it. */
  predicate LaterMove(e: Event, b: Broadcaster, c: Broadcaster) {
    && b.stage.HasMessage() && c.targets == b.targets
    && (c.stage.HasMessage() ==> c.stage.msg == b.stage.msg)
    && (if e.PeerSend? then c.stage.ToPeers? && b.stage.ToPeers?
        else if e.Release? then c.stage.Finished?
        else c.stage.Sized? && (if b.targets.SomePeers? then b.stage.ToPeers? else b.stage.ToRooms? && b.stage.rooms == []))
  }

  lemma LaterMoves(home: PeerId -> nat, s: Hub, e: Event)
    requires Inv(home, s) && Enabled(home, s, e) && (e.PeerSend? || e.AddSize? || e.Release?)
    ensures At(s, e.k) && e.k < |Step(home, s, e).broadcasters|
    ensures LaterMove(e, s.broadcasters[e.k], Step(home, s, e).broadcasters[e.k])
  {
    assert StageOk(s.broadcasters[e.k], s.issued);
    hide Inv, M.Step, M.Enabled, M.Indexed;
  }

  lemma LaterMoveKeepsReach(s: Hub, t: Hub, e: Event, b: Broadcaster, c: Broadcaster, r: nat)
    requires r < |s.rooms| && r < |t.rooms| && ReachAt(s, b, r) && LaterMove(e, b, c)
    requires Copies(t.rooms[r], b.stage.msg) == Copies(s.rooms[r], b.stage.msg)
    ensures ReachAt(t, c, r)
  {
    hide Copies;
  }

  lemma LaterStepKeepsReach(home: PeerId -> nat, s: Hub, e: Event, r: nat)
    requires Inv(home, s) && Enabled(home, s, e) && r < |s.rooms| && r < |Step(home, s, e).rooms|
    requires e.PeerSend? || e.AddSize? || e.Release?
    requires ReachAt(s, s.broadcasters[e.k], r)
    ensures ReachAt(Step(home, s, e), Step(home, s, e).broadcasters[e.k], r)
  {
    LaterMoves(home, s, e);
    hide Copies, Inv, Enabled, Step, LaterMove, ReachAt;
    assert s.broadcasters[e.k].stage.HasMessage() by { WithMessage(e, s.broadcasters[e.k], Step(home, s, e).broadcasters[e.k]); }
    StepCopies(home, s, e, r, s.broadcasters[e.k].stage.msg);
    LaterMoveKeepsReach(s, Step(home, s, e), e, s.broadcasters[e.k], Step(home, s, e).broadcasters[e.k], r);
  }

  lemma WithMessage(e: Event, b: Broadcaster, c: Broadcaster)
    requires LaterMove(e, b, c)
    ensures b.stage.HasMessage()
  {
  }

  lemma RecordKeepsReach(home: PeerId -> nat, s: Hub, k: nat, order: seq<nat>, r: nat)
    requires Inv(home, s) && Enabled(home, s, Record(k, order)) && r < |s.rooms| && ReachAt(s, s.broadcasters[k], r)
    ensures var t := Step(home, s, Record(k, order)); r < |t.rooms| && ReachAt(t, t.broadcasters[k], r)
  {
    var b := s.broadcasters[k];
    StepCopies(home, s, Record(k, order), r, b.stage.msg);
    if b.targets.AllRooms? {
      PermutationOnce(order, |s.rooms|, r);
    }
    hide Copies, Inv, Times, M.Step, M.Enabled, M.Indexed, IsPermutation;
  }

  lemma SendMoves(home: PeerId -> nat, s: Hub, k: nat)
    requires Enabled(home, s, RoomSend(k))
    ensures At(s, k) && s.broadcasters[k].stage.ToRooms? && s.broadcasters[k].stage.rooms != []
    ensures var st, t := s.broadcasters[k].stage, Step(home, s, RoomSend(k));
      k < |t.broadcasters| && t.broadcasters[k] == s.broadcasters[k].(stage := ToRooms(st.msg, st.rooms[1..]))
  {
    hide M.Step, M.Enabled, M.Indexed;
  }

  lemma RoomSendKeepsReach(home: PeerId -> nat, s: Hub, k: nat, r: nat)
    requires Inv(home, s) && Enabled(home, s, RoomSend(k)) && r < |s.rooms| && ReachAt(s, s.broadcasters[k], r)
    ensures var t := Step(home, s, RoomSend(k)); r < |t.rooms| && ReachAt(t, t.broadcasters[k], r)
  {
    var st := s.broadcasters[k].stage;
    SendMoves(home, s, k);
    StepCopies(home, s, RoomSend(k), r, st.msg);
    StepKeepsRoomCount(home, s, RoomSend(k));
    OneLess(st.rooms, r);
    hide Copies, Inv, Enabled, Step, Times, Aimed;
  }

  lemma OneLess(rooms: seq<nat>, r: nat)
    requires rooms != []
    ensures Times(rooms, r) == Times(rooms[1..], r) + if rooms[0] == r then 1 else 0
  {
    assert rooms == [rooms[0]] + rooms[1..];
  }

  lemma StepKeepsReachInv(home: PeerId -> nat, s: Hub, e: Event)
    requires Inv(home, s) && ReachInv(s) && Enabled(home, s, e)
    ensures ReachInv(Step(home, s, e))
  {
    var t := Step(home, s, e);
    hide Step, Enabled, Inv, Copies, Aimed;
    forall k, r | 0 <= k < |t.broadcasters| && 0 <= r < |t.rooms|
      ensures ReachAt(t, t.broadcasters[k], r)
    {
      if t.broadcasters[k].stage.HasMessage() {
        StepKeepsReach(home, s, e, k, r);
      }
    }
  }

  lemma {:induction false} ReachInRun(home: PeerId -> nat, n: nat, states: seq<Hub>, events: seq<Event>, t: nat)
    requires IsRun(home, n, states, events) && t < |states|
    ensures ReachInv(states[t])
  {
    if t == 0 {
      NothingSentYet(home, n, states, events);
    } else {
      hide *;
      ReachInRun(home, n, states, events, t - 1);
      StepInRun(home, n, states, events, t);
      StepKeepsReachInv(home, states[t - 1], events[t - 1]);
    }
  }

  lemma NothingSentYet(home: PeerId -> nat, n: nat, states: seq<Hub>, events: seq<Event>)
    requires IsRun(home, n, states, events)
    ensures |states| > 0 && ReachInv(states[0])
  {
    hide Enabled, Step;
  }

  // ---------------------------------------------------------------- and it stays there

  /** Broadcaster k is done with the message, and nobody will send it again. */
  ghost predicate Settled(s: Hub, k: nat, m: PushMsg, targets: Targets) {
    && k < |s.broadcasters| && s.broadcasters[k].targets == targets
    && (s.broadcasters[k].stage == Sized(m) || s.broadcasters[k].stage.Finished?)
    && 1 <= m.id <= s.counter
    && (forall j :: 0 <= j < |s.broadcasters| && j != k && s.broadcasters[j].stage.HasMessage() ==>
          m.id < s.broadcasters[j].stage.msg.id)
    && forall r :: 0 <= r < |s.rooms| ==> Copies(s.rooms[r], m) == Aimed(targets, r)
  }

  lemma SizedIsSettled(home: PeerId -> nat, s: Hub, k: nat)
    requires Inv(home, s) && ReachInv(s) && k < |s.broadcasters| && s.broadcasters[k].stage.Sized?
    ensures Settled(s, k, s.broadcasters[k].stage.msg, s.broadcasters[k].targets)
  {
    assert StageOk(s.broadcasters[k], s.issued) && ReachOk(s, s.broadcasters[k]);
    forall j | 0 <= j < |s.broadcasters| && j != k && s.broadcasters[j].stage.HasMessage()
      ensures false
    {
      AtMostOneInside(s, k, j);
    }
    hide Copies, Aimed;
    forall r | 0 <= r < |s.rooms|
      ensures Copies(s.rooms[r], s.broadcasters[k].stage.msg) == Aimed(s.broadcasters[k].targets, r)
    {
      assert ReachAt(s, s.broadcasters[k], r);
    }
    hide RoomsInv, MutexInv, RecordedInv;
  }

  /** What a step does to the broadcasters keeps the message settled. */
  lemma ShapeKeepsSettled(s: Hub, e: Event, t: Hub, k: nat, m: PushMsg, targets: Targets)
    requires StepShape(s, e, t) && Settled(s, k, m, targets)
    ensures k < |t.broadcasters| && t.broadcasters[k].targets == targets
    ensures m.id <= t.counter
    ensures forall j :: 0 <= j < |t.broadcasters| && j != k && t.broadcasters[j].stage.HasMessage() ==>
              m.id < t.broadcasters[j].stage.msg.id
  {
    hide Copies, Aimed;
  }

  /** After it was sized a message is only released. */
  lemma SizedOrFinished(home: PeerId -> nat, s: Hub, e: Event, k: nat, m: PushMsg)
    requires Enabled(home, s, e) && k < |s.broadcasters| && (s.broadcasters[k].stage == Sized(m) || s.broadcasters[k].stage.Finished?)
    ensures k < |Step(home, s, e).broadcasters|
    ensures Step(home, s, e).broadcasters[k].stage == Sized(m) || Step(home, s, e).broadcasters[k].stage.Finished?
    ensures e.RoomSend? ==> At(s, e.k) && s.broadcasters[e.k].stage.HasMessage() && e.k != k
  {
    hide M.Step, M.Enabled, M.Indexed;
  }

  lemma StepKeepsSettled(home: PeerId -> nat, s: Hub, e: Event, k: nat, m: PushMsg, targets: Targets)
    requires Inv(home, s) && Enabled(home, s, e) && Settled(s, k, m, targets)
    ensures Settled(Step(home, s, e), k, m, targets)
  {
    var t := Step(home, s, e);
    StepMoves(home, s, e);
    StepKeepsRoomCount(home, s, e);
    SizedOrFinished(home, s, e, k, m);
    hide Step, Enabled, Inv, Copies, Aimed;
    ShapeKeepsSettled(s, e, t, k, m, targets);
    hide StepShape;
    forall r | 0 <= r < |t.rooms|
      ensures Copies(t.rooms[r], m) == Aimed(targets, r)
    {
      StepCopies(home, s, e, r, m);
    }
  }

  lemma {:induction false} SettledInRun(home: PeerId -> nat, n: nat, states: seq<Hub>, events: seq<Event>, t: nat, u: nat, k: nat)
    requires IsRun(home, n, states, events) && t <= u < |states|
    requires k < |states[t].broadcasters| && states[t].broadcasters[k].stage.Sized?
    ensures Settled(states[u], k, states[t].broadcasters[k].stage.msg, states[t].broadcasters[k].targets)
  {
    hide Inv, Step, Enabled, Settled, ReachInv;
    if u == t {
      RunInv(home, n, states, events, t);
      ReachInRun(home, n, states, events, t);
      SizedIsSettled(home, states[t], k);
    } else {
      hide *;
      SettledInRun(home, n, states, events, t, u - 1, k);
      StepInRun(home, n, states, events, u);
      StepKeepsSettled(home, states[u - 1], events[u - 1], k, states[t].broadcasters[k].stage.msg, states[t].broadcasters[k].targets);
    }
  }

  /** In every run: once a broadcaster has added the size of its message, which is before it gives the mutex back,
      every room has received the message, or has it in its channel, exactly as often as the call named the room:
      once for a broadcast to all rooms, never for a message to peers. From then on that does not change. */
  lemma BroadcastReachesRooms(home: PeerId -> nat, n: nat, states: seq<Hub>, events: seq<Event>,
                              t: nat, u: nat, k: nat, r: nat)
    requires IsRun(home, n, states, events) && t <= u < |states| && r < n
    requires k < |states[t].broadcasters| && states[t].broadcasters[k].stage.Sized?
    ensures var b := states[t].broadcasters[k];
      && |states[u].rooms| == n && Copies(states[u].rooms[r], b.stage.msg) == Aimed(b.targets, r)
      && b.stage.msg.body == b.body && b.stage.msg.isBrAll == !b.targets.SomePeers?
  {
    RunInv(home, n, states, events, t);
    assert StageOk(states[t].broadcasters[k], states[t].issued);
    hide IsRun, Inv, Copies, Aimed;
    RunInv(home, n, states, events, u);
    SettledInRun(home, n, states, events, t, u, k);
  }

  // ---------------------------------------------------------------- messages to peers

  /** Sending to a peer puts the message at the end of the channel of the one connection that the flat map has for
      the peer, which is open; for a peer that is not online it changes no room. */
  lemma PeerSendReaches(home: PeerId -> nat, s: Hub, k: nat)
    requires Inv(home, s) && Enabled(home, s, PeerSend(k))
    ensures var t, p, m := Step(home, s, PeerSend(k)), s.broadcasters[k].stage.peers[0], s.broadcasters[k].stage.msg;
      if p !in F.Flat(s.rooms) then t.rooms == s.rooms
      else
        var (r, i) := F.Flat(s.rooms)[p];
        && IsConn(s, r, i) && IsConn(t, r, i) && ConnAt(s, r, i).peer == p && !ConnAt(s, r, i).closed
        && ConnAt(t, r, i).peer == p && ConnAt(t, r, i).send == ConnAt(s, r, i).send + [m]
        && PeerPart(ConnAt(t, r, i).hist) == PeerPart(ConnAt(s, r, i).hist) + [m]
  {
    var p, m := s.broadcasters[k].stage.peers[0], s.broadcasters[k].stage.msg;
    var room := s.rooms[home(p)];
    PeerSendMoves(home, s, k);
    F.InvHomed(home, s);
    F.LookupIsFlat(home, s.rooms, p);
    hide Inv, F.Flat, F.Homed, M.RoomInv, M.Step, Step;
    RoomPeerSend(room, p, m, s.issued);
  }

  lemma PeerSendMoves(home: PeerId -> nat, s: Hub, k: nat)
    requires Inv(home, s) && Enabled(home, s, PeerSend(k))
    ensures var p, m := s.broadcasters[k].stage.peers[0], s.broadcasters[k].stage.msg;
      && home(p) < |s.rooms| && M.RoomInv(s.rooms[home(p)], s.issued) && !m.isBrAll
      && Step(home, s, PeerSend(k)).rooms == s.rooms[home(p) := M.Step(s.rooms[home(p)], M.PeerSend(p, m))]
  {
    assert StageOk(s.broadcasters[k], s.issued);
    hide M.RoomInv, M.Step, M.Enabled, M.Indexed, MutexInv, IssuedInv, RecordedInv;
  }

  lemma RoomPeerSend(room: M.Room, p: PeerId, m: PushMsg, issued: seq<PushMsg>)
    requires M.RoomInv(room, issued) && M.Enabled(room, M.PeerSend(p, m)) && !m.isBrAll
    ensures var t := M.Step(room, M.PeerSend(p, m));
      if p !in room.members then t == room
      else
        var i := room.members[p];
        && i < |room.conns| && |t.conns| == |room.conns| && room.conns[i].peer == p && !room.conns[i].closed
        && t.conns[i].peer == p && t.conns[i].send == room.conns[i].send + [m]
        && PeerPart(t.conns[i].hist) == PeerPart(room.conns[i].hist) + [m]
  {
    if p in room.members {
      L.MemberIsRegistered(room, p, issued);
      PartsOfAppend(room.conns[room.members[p]].hist, m);
    }
    hide M.RoomInv, PeerPart;
  }
}
