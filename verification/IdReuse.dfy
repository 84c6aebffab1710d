/** Two runs that reuse a peer id early: one strands a live connection, the other closes a channel twice.
    `HubLifecycle.LifecycleExactly` and `HubLifecycle.PanicInRun` say exactly which runs do. */
module IdReuse {
  import opened Messages
  import M = RoomModel
  import L = RoomLife
  import opened HubSystem
  import opened HubTheorems

  ghost predicate Reachable(home: PeerId -> nat, n: nat, s: Hub) {
    exists states, events :: IsRun(home, n, states, events) && states[|states| - 1] == s
  }

  lemma StartReachable(home: PeerId -> nat, n: nat)
    ensures Reachable(home, n, Start(n))
  {
    assert IsRun(home, n, [Start(n)], []) && [Start(n)][0] == Start(n);
  }

  lemma Reach(home: PeerId -> nat, n: nat, s: Hub, e: Event)
    requires Reachable(home, n, s) && Enabled(home, s, e)
    ensures Reachable(home, n, Step(home, s, e))
  {
    var states, events :| IsRun(home, n, states, events) && states[|states| - 1] == s;
    var t := Step(home, s, e);
    hide Step, Enabled;
    assert IsRun(home, n, states + [t], events + [e]);
    assert (states + [t])[|states + [t]| - 1] == t;
  }

  /** A hub of one room, with nobody broadcasting. */
  function Quiet(room: M.Room, totalPeers: int): Hub {
    Hub([room], [], 1, 0, {}, 0, totalPeers, [])
  }

  lemma ReachLocal(home: PeerId -> nat, room: M.Room, peers: int, ev: M.Event, next: M.Room, peers': int)
    requires Reachable(home, 1, Quiet(room, peers)) && IsLocal(home, 0, ev)
    requires M.Indexed(room) && M.Enabled(room, ev)
    requires next == M.Step(room, ev) && peers' == peers + L.CountedDelta(ev)
    ensures Reachable(home, 1, Quiet(next, peers'))
  {
    hide M.Step;
    Reach(home, 1, Quiet(room, peers), Local(0, ev));
    assert [room][0 := next] == [next];
  }

  function TwoConns(members: map<PeerId, nat>, peercnt: int, first: M.Conn, second: M.Conn, overwrites: nat): M.Room {
    M.Room(members, [], M.Idle, peercnt, 0, [first, second], false, [], overwrites)
  }

  function C(p: PeerId, closed: bool, phase: M.Phase, left: Option<int>): M.Conn {
    M.Conn(p, [], closed, phase, false, [], 0, left)
  }

  lemma TwoOpened(home: PeerId -> nat, p: PeerId)
    requires home(p) == 0
    ensures Reachable(home, 1, Quiet(TwoConns(map[], 0, C(p, false, M.Born, None), C(p, false, M.Born, None), 0), 0))
  {
    hide Reachable;
    StartReachable(home, 1);
    assert Start(1) == Quiet(M.EmptyRoom, 0);
    var r1 := M.EmptyRoom.(conns := [C(p, false, M.Born, None)]);
    ReachLocal(home, M.EmptyRoom, 0, M.Open(p), r1, 0);
    var r2 := TwoConns(map[], 0, C(p, false, M.Born, None), C(p, false, M.Born, None), 0);
    ReachLocal(home, r1, 0, M.Open(p), r2, 0);
  }

  lemma FirstJoined(home: PeerId -> nat, p: PeerId)
    requires home(p) == 0
    ensures Reachable(home, 1, Quiet(TwoConns(map[p := 0], 1, C(p, false, M.Active, None), C(p, false, M.Born, None), 0), 1))
  {
    hide Reachable;
    TwoOpened(home, p);
    var r2 := TwoConns(map[], 0, C(p, false, M.Born, None), C(p, false, M.Born, None), 0);
    var r3 := TwoConns(map[p := 0], 1, C(p, false, M.Joined, None), C(p, false, M.Born, None), 0);
    ReachLocal(home, r2, 0, M.Join(0), r3, 0);
    var r4 := TwoConns(map[p := 0], 1, C(p, false, M.Active, None), C(p, false, M.Born, None), 0);
    ReachLocal(home, r3, 0, M.CountIn(0), r4, 1);
  }

  lemma BothJoined(home: PeerId -> nat, p: PeerId)
    requires home(p) == 0
    ensures Reachable(home, 1, Quiet(TwoConns(map[p := 1], 2, C(p, false, M.Active, Some(0)), C(p, false, M.Joined, None), 1), 1))
  {
    hide Reachable;
    FirstJoined(home, p);
    var r4 := TwoConns(map[p := 0], 1, C(p, false, M.Active, None), C(p, false, M.Born, None), 0);
    var r5 := TwoConns(map[p := 1], 2, C(p, false, M.Active, Some(0)), C(p, false, M.Joined, None), 1);
    assert M.Step(r4, M.Join(1)).conns == r5.conns;
    ReachLocal(home, r4, 1, M.Join(1), r5, 1);
  }

  /** A peer registers again while its old connection is still registered and in the map; the old one's
      unregistration then takes the new one out of the map. The new connection is registered and was not evicted,
      but it is in no map, and its own unregistration does not close its channel. */
  lemma EarlyReuseStrands(home: PeerId -> nat, p: PeerId)
    requires home(p) == 0
    ensures exists s :: Reachable(home, 1, s) && IsConn(s, 0, 1) && ConnAt(s, 0, 1).Registered()
              && !ConnAt(s, 0, 1).evicted && !M.IsMember(s.rooms[0], 1)
    ensures exists s :: Reachable(home, 1, s) && IsConn(s, 0, 1) && ConnAt(s, 0, 1).phase.Left? && !ConnAt(s, 0, 1).closed
  {
    hide Reachable;
    BothJoined(home, p);
    var r5 := TwoConns(map[p := 1], 2, C(p, false, M.Active, Some(0)), C(p, false, M.Joined, None), 1);
    var r6 := TwoConns(map[], 1, C(p, true, M.Left, Some(0)), C(p, false, M.Joined, Some(0)), 1);
    ReachLocal(home, r5, 1, M.Leave(0), r6, 1);
    assert ConnAt(Quiet(r6, 1), 0, 1).Registered();
    var r7 := TwoConns(map[], 1, C(p, true, M.Left, Some(0)), C(p, false, M.Active, Some(0)), 1);
    ReachLocal(home, r6, 1, M.CountIn(1), r7, 2);
    var r8 := TwoConns(map[], 1, C(p, true, M.Left, Some(0)), C(p, false, M.Left, Some(0)), 1);
    ReachLocal(home, r7, 2, M.Leave(1), r8, 2);
    assert ConnAt(Quiet(r8, 2), 0, 1).phase.Left?;
  }

  // ---------------------------------------------------------------- a channel closed twice

  function Msgs(k: nat): (s: seq<PushMsg>)
    ensures |s| == k
  {
    if k == 0 then [] else Msgs(k - 1) + [PushMsg(k, [], true)]
  }

  function Ids(k: nat): set<nat> {
    if k == 0 then {} else Ids(k - 1) + {k}
  }

  function Served(k: nat): (s: seq<Broadcaster>)
    ensures |s| == k
  {
    if k == 0 then [] else Served(k - 1) + [Broadcaster(AllRooms, [], Finished)]
  }

  /** One connection, whose writer takes nothing. */
  function Stalled(p: PeerId, k: nat): M.Conn {
    M.Conn(p, Msgs(k), false, M.Active, false, Msgs(k), 0, None)
  }

  function OneConn(p: PeerId, k: nat): M.Room {
    M.Room(map[p := 0], [], M.Idle, 1, 0, [Stalled(p, k)], false, Msgs(k), 0)
  }

  /** After k empty broadcasts to everybody. */
  function Filled(room: M.Room, k: nat): Hub {
    Hub([room], Served(k), 1, k, Ids(k), 0, 1, Msgs(k))
  }

  function Busy(room: M.Room, k: nat, stage: Stage, mutex: nat, issued: nat, recorded: nat): Hub {
    Hub([room], Served(k) + [Broadcaster(AllRooms, [], stage)], mutex, issued, Ids(recorded), 0, 1, Msgs(issued))
  }

  lemma BroadcasterEnters(home: PeerId -> nat, room: M.Room, k: nat)
    requires Reachable(home, 1, Filled(room, k))
    requires M.Indexed(room) && !room.panicked
    ensures Reachable(home, 1, Busy(room, k, ToRooms(PushMsg(k + 1, [], true), [0]), 0, k + 1, k + 1))
  {
    hide Reachable;
    var m := PushMsg(k + 1, [], true);
    Reach(home, 1, Filled(room, k), Spawn(AllRooms, []));
    var s1 := Busy(room, k, Waiting, 1, k, k);
    Reach(home, 1, s1, Acquire(k));
    var s2 := Busy(room, k, Entered, 0, k, k);
    assert Step(home, s1, Acquire(k)) == s2;
    Reach(home, 1, s2, Number(k));
    var s3 := Busy(room, k, Numbered(m), 0, k + 1, k);
    assert Step(home, s2, Number(k)) == s3;
    assert IsPermutation([0], 1);
    Reach(home, 1, s3, Record(k, [0]));
    assert Step(home, s3, Record(k, [0])).broadcasters == Served(k) + [Broadcaster(AllRooms, [], ToRooms(m, [0]))];
  }

  /** Message k + 1 goes from a new broadcaster into the channel of the only room. */
  lemma BroadcastOnce(home: PeerId -> nat, room: M.Room, k: nat)
    requires Reachable(home, 1, Filled(room, k))
    requires M.Indexed(room) && !room.panicked && room.queue == []
    ensures Reachable(home, 1, Filled(room.(queue := [PushMsg(k + 1, [], true)]), k + 1))
  {
    BroadcasterEnters(home, room, k);
    hide Reachable;
    var m := PushMsg(k + 1, [], true);
    var s4 := Busy(room, k, ToRooms(m, [0]), 0, k + 1, k + 1);
    Reach(home, 1, s4, RoomSend(k));
    var room1 := room.(queue := [m]);
    var s5 := Busy(room1, k, ToRooms(m, []), 0, k + 1, k + 1);
    assert room.queue + [m] == [m] && [0][1..] == [];
    assert Step(home, s4, RoomSend(k)).rooms == s5.rooms;
    assert Step(home, s4, RoomSend(k)).broadcasters == s5.broadcasters;
    Reach(home, 1, s5, AddSize(k));
    var s6 := Busy(room1, k, Sized(m), 0, k + 1, k + 1);
    assert Step(home, s5, AddSize(k)).broadcasters == s6.broadcasters;
    Reach(home, 1, s6, Release(k));
    assert Step(home, s6, Release(k)).broadcasters == Served(k + 1);
  }

  lemma ReachIn(home: PeerId -> nat, room: M.Room, k: nat, ev: M.Event, next: M.Room)
    requires Reachable(home, 1, Filled(room, k)) && IsLocal(home, 0, ev)
    requires M.Indexed(room) && M.Enabled(room, ev)
    requires next == M.Step(room, ev) && L.CountedDelta(ev) == 0
    ensures Reachable(home, 1, Filled(next, k))
  {
    hide M.Step;
    Reach(home, 1, Filled(room, k), Local(0, ev));
    assert [room][0 := next] == [next];
  }

  /** The room that is to hand message k + 1 to its only connection. */
  function OneToServe(p: PeerId, k: nat): M.Room {
    OneConn(p, k).(log := Msgs(k + 1), delivery := M.Delivering(PushMsg(k + 1, [], true), {p}), tokens := 1)
  }

  lemma RoundStarts(home: PeerId -> nat, p: PeerId, k: nat)
    requires home(p) == 0 && Reachable(home, 1, Filled(OneConn(p, k), k))
    ensures Reachable(home, 1, Filled(OneToServe(p, k), k + 1))
  {
    BroadcastOnce(home, OneConn(p, k), k);
    hide Reachable;
    var m := PushMsg(k + 1, [], true);
    var r0 := OneConn(p, k).(queue := [m]);
    var r1 := OneToServe(p, k).(tokens := 0);
    assert map[p := 0].Keys == {p};
    ReachIn(home, r0, k + 1, M.Dequeue, r1);
    ReachIn(home, r1, k + 1, M.Tick, OneToServe(p, k));
  }

  /** The room hands message k + 1 to its only connection. */
  lemma HandRound(home: PeerId -> nat, p: PeerId, k: nat)
    requires home(p) == 0 && Reachable(home, 1, Filled(OneConn(p, k), k))
    ensures Reachable(home, 1, Filled(if k < M.SEND_CAP then OneConn(p, k + 1) else AfterEviction(p, k), k + 1))
  {
    RoundStarts(home, p, k);
    hide Reachable;
    var end := if k < M.SEND_CAP then OneConn(p, k + 1) else AfterEviction(p, k);
    var r3 := end.(delivery := M.Delivering(PushMsg(k + 1, [], true), {}));
    assert {p} - {p} == {};
    assert [Stalled(p, k)][0 := end.conns[0]] == end.conns;
    assert map[p := 0] - {p} == map[];
    ReachIn(home, OneToServe(p, k), k + 1, M.Deliver(p), r3);
    ReachIn(home, r3, k + 1, M.Done, end);
  }

  function AfterEviction(p: PeerId, k: nat): M.Room {
    M.Room(map[], [], M.Idle, 0, 0, [M.Evicted(Stalled(p, k), k)], false, Msgs(k + 1), 0)
  }

  lemma {:induction false} FillUp(home: PeerId -> nat, p: PeerId, k: nat)
    requires home(p) == 0 && k <= M.SEND_CAP
    ensures Reachable(home, 1, Filled(OneConn(p, k), k))
  {
    if k == 0 {
      hide Reachable;
      StartReachable(home, 1);
      assert Start(1) == Quiet(M.EmptyRoom, 0);
      var r1 := M.EmptyRoom.(conns := [C(p, false, M.Born, None)]);
      ReachLocal(home, M.EmptyRoom, 0, M.Open(p), r1, 0);
      var r2 := M.Room(map[p := 0], [], M.Idle, 1, 0, [C(p, false, M.Joined, None)], false, [], 0);
      ReachLocal(home, r1, 0, M.Join(0), r2, 0);
      ReachLocal(home, r2, 0, M.CountIn(0), OneConn(p, 0), 1);
      assert Quiet(OneConn(p, 0), 1) == Filled(OneConn(p, 0), 0);
    } else {
      FillUp(home, p, k - 1);
      HandRound(home, p, k - 1);
    }
  }

  /** The peer of the evicted connection has registered again. */
  function BackAgain(p: PeerId): M.Room {
    var gone, k := AfterEviction(p, M.SEND_CAP), M.SEND_CAP + 1;
    gone.(conns := [gone.conns[0], M.Joining(C(p, false, M.Born, None), k)], members := map[p := 1], peercnt := 1)
  }

  lemma EvictedIsBack(home: PeerId -> nat, p: PeerId)
    requires home(p) == 0
    ensures Reachable(home, 1, Filled(BackAgain(p), M.SEND_CAP + 1))
  {
    FillUp(home, p, M.SEND_CAP);
    HandRound(home, p, M.SEND_CAP);
    hide Reachable;
    var k := M.SEND_CAP + 1;
    var r1 := AfterEviction(p, M.SEND_CAP);
    var r2 := r1.(conns := [r1.conns[0], C(p, false, M.Born, None)]);
    ReachIn(home, r1, k, M.Open(p), r2);
    ReachIn(home, r2, k, M.Join(1), BackAgain(p));
  }

  /** A stalled connection is evicted by the first message that finds its channel full;
      its peer registers again; the late unregistration of the evicted connection then closes its channel for
      the second time, though no registration found its id in the map. */
  lemma EarlyReuseClosesTwice(home: PeerId -> nat, p: PeerId)
    requires home(p) == 0
    ensures exists s :: Reachable(home, 1, s) && |s.rooms| == 1 && s.rooms[0].panicked && s.rooms[0].overwrites == 0
  {
    EvictedIsBack(home, p);
    hide Reachable;
    var room, k := BackAgain(p), M.SEND_CAP + 1;
    ReachIn(home, room, k, M.Leave(0), room.(panicked := true));
    assert Filled(room.(panicked := true), k).rooms[0].panicked;
  }
}
