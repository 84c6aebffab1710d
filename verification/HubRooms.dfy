/** The rooms of the server behind one interface, as the code keeps them: registration by the hash of the peer id,
    the three broadcasters with their shared mutex and counter, the statistics, and the queries. Every step of
    every goroutine refines a step of the hub model. */
module ShardedHub {
  import opened Messages
  import opened Hubs
  import opened Connections
  import M = RoomModel
  import L = RoomLife
  import S = HubSystem
  import F = FlatIndex
  import Q = Reliability
  import R = Retransmission
  import Codec

  const MAX_ROOM_NUM := 100
  const RESERVED_ROOM_NUM := 10

  class AckStat {
    var sendMsgCnt: nat
    var recvAckCnt: nat

    constructor ()
      ensures View() == Q.Stat(0, 0)
    {
      sendMsgCnt, recvAckCnt := 0, 0;
    }

    ghost function View(): Q.Stat
      reads this
    {
      Q.Stat(sendMsgCnt, recvAckCnt)
    }
  }

  ghost function RoomViews(rooms: seq<Hub>, conns: set<Connection>): (s: seq<M.Room>)
    requires forall i :: 0 <= i < |rooms| ==> rooms[i].Valid() && rooms[i].repr <= conns
    reads rooms, conns
    ensures |s| == |rooms| && forall i :: 0 <= i < |rooms| ==> s[i] == rooms[i].View()
  {
    seq(|rooms|, i requires 0 <= i < |rooms| && rooms[i].Valid() && rooms[i].repr <= conns reads rooms, conns => rooms[i].View())
  }

  // ---------------------------------------------------------------- comma-separated lists of peers

  /** The ids of the list that are in the set, in the same order. */
  ghost function Among(ids: seq<PeerId>, all: set<PeerId>): seq<PeerId> {
    if ids == [] then []
    else
      var last := ids[|ids| - 1];
      Among(ids[..|ids| - 1], all) + if last in all then [last] else []
  }

  /** The ids with a comma after each of them. */
  function Listed(ids: seq<PeerId>): string {
    if ids == [] then "" else Listed(ids[..|ids| - 1]) + ids[|ids| - 1] + ","
  }

  /** The ids with a comma between them. */
  function Joined(ids: seq<PeerId>): string {
    if ids == [] then ""
    else if |ids| == 1 then ids[0]
    else Joined(ids[..|ids| - 1]) + "," + ids[|ids| - 1]
  }

  lemma AmongOne(p: PeerId, all: set<PeerId>)
    ensures Among([p], all) == if p in all then [p] else []
  {
    assert [p][..0] == [];
  }

  /** The online ids of a list come in its order. */
  lemma {:induction false} AmongInOrder(a: seq<PeerId>, b: seq<PeerId>, all: set<PeerId>)
    ensures Among(a + b, all) == Among(a, all) + Among(b, all)
  {
    if b == [] {
      assert a + b == a;
    } else {
      var front, last := b[..|b| - 1], b[|b| - 1];
      AmongInOrder(a, front, all);
      assert (a + b)[..|a + b| - 1] == a + front && (a + b)[|a + b| - 1] == last;
      var end := if last in all then [last] else [];
      assert Among(a + b, all) == Among(a + front, all) + end && Among(b, all) == Among(front, all) + end;
      hide Among;
      assert Among(a, all) + Among(front, all) + end == Among(a, all) + (Among(front, all) + end);
    }
  }

  /** There is one comma between any two ids. */
  lemma {:induction false} JoinedInOrder(a: seq<PeerId>, b: seq<PeerId>)
    requires a != [] && b != []
    ensures Joined(a + b) == Joined(a) + "," + Joined(b)
  {
    var front, last := b[..|b| - 1], b[|b| - 1];
    assert (a + b)[..|a + b| - 1] == a + front && (a + b)[|a + b| - 1] == last;
    if front == [] {
      assert a + front == a;
    } else {
      JoinedInOrder(a, front);
      CommaApart(Joined(a), Joined(front), last);
    }
  }

  lemma CommaApart(a: string, b: string, c: string)
    ensures a + "," + b + "," + c == a + "," + (b + "," + c)
  {
  }

  lemma {:induction false} ListedIsJoined(ids: seq<PeerId>)
    requires ids != []
    ensures Listed(ids) == Joined(ids) + ","
  {
    if |ids| == 1 {
      assert ids[..0] == [];
    } else {
      ListedIsJoined(ids[..|ids| - 1]);
    }
  }

  lemma ListedStart(ids: seq<PeerId>, all: set<PeerId>)
    ensures Listed(Among(ids[..0], all)) == ""
  {
  }

  lemma OneMoreListed(ids: seq<PeerId>, all: set<PeerId>, i: nat)
    requires i < |ids|
    ensures Listed(Among(ids[..i + 1], all)) == Listed(Among(ids[..i], all)) + if ids[i] in all then ids[i] + "," else ""
  {
    assert ids[..i + 1][..i] == ids[..i];
    var on := Among(ids[..i], all);
    assert (on + [ids[i]])[..|on|] == on;
    assert on + [] == on;
  }

  lemma ListedEnd(ids: seq<PeerId>, all: set<PeerId>)
    ensures var list, answer := Listed(Among(ids[..|ids|], all)), Joined(Among(ids, all));
      && (|list| > 32 <==> |answer| >= 32)
      && (|list| > 32 ==> list[..|list| - 1] == answer)
  {
    assert ids[..|ids|] == ids;
    if Among(ids, all) != [] {
      ListedIsJoined(Among(ids, all));
    }
  }

  /** Recording an id first adds it to the statistics and then moves the broadcaster on. */
  lemma RecordInSteps(home: PeerId -> nat, s: S.Hub, k: nat, order: seq<nat>)
    requires S.Enabled(home, s, S.Record(k, order))
    ensures k < |s.broadcasters| && s.broadcasters[k].stage.HasMessage()
    ensures var b := s.broadcasters[k];
      S.Step(home, s, S.Record(k, order))
      == S.Advance(s.(recorded := s.recorded + {b.stage.msg.id}), k,
                   if b.targets.SomePeers? then S.ToPeers(b.stage.msg, b.targets.peers) else S.ToRooms(b.stage.msg, order))
  {
    hide M.Step, M.Enabled, M.Indexed;
  }

  class HubRooms {
    const home: PeerId -> nat  // the consistent hash
    const rooms: seq<Hub>
    var broadcastMu: nat       // tokens in the mutex channel
    var totalMsgCnt: nat
    var totalMsgSize: int
    var totalPeerCnt: int
    var msgStats: map<nat, AckStat>
    var broadcasters: seq<S.Broadcaster>  // the goroutines inside one of the three broadcast functions
    ghost var conns: set<Connection>  // every connection of every room
    ghost var owned: set<AckStat>
    ghost var issued: seq<PushMsg>

    static method MakeRooms(n: nat) returns (rooms: seq<Hub>)
      ensures |rooms| == n && forall i :: 0 <= i < n ==> fresh(rooms[i])
      ensures forall i :: 0 <= i < n ==> rooms[i].Valid() && rooms[i].repr == {} && rooms[i].View() == M.EmptyRoom
      ensures forall i, j :: 0 <= i < j < n ==> rooms[i] != rooms[j]
    {
      rooms := [];
      for i := 0 to n
        invariant |rooms| == i && forall j :: 0 <= j < i ==> fresh(rooms[j])
        invariant forall j :: 0 <= j < i ==> rooms[j].Valid() && rooms[j].repr == {} && rooms[j].View() == M.EmptyRoom
        invariant forall j, k :: 0 <= j < k < i ==> rooms[j] != rooms[k]
      {
        var room := new Hub();
        rooms := rooms + [room];
      }
    }

    /** Start-up: the configured number of rooms, brought between the two limits, each of them empty, and the
        token of the mutex in its channel. */
    constructor (home: PeerId -> nat, roomLimit: int)
      ensures this.home == home && Valid()
      ensures |rooms| == if roomLimit < 10 then 10 else if 100 < roomLimit then 100 else roomLimit
      ensures View() == S.Start(|rooms|) && Stats() == map[]
    {
      var limit := roomLimit;
      if limit > MAX_ROOM_NUM {
        limit := MAX_ROOM_NUM;
      }
      if limit < RESERVED_ROOM_NUM {
        limit := RESERVED_ROOM_NUM;
      }
      this.home := home;
      var made := MakeRooms(limit);
      rooms := made;
      broadcastMu, totalMsgCnt, totalMsgSize, totalPeerCnt, msgStats, broadcasters := 1, 0, 0, 0, map[], [];
      conns, owned, issued := {}, {}, [];
      new;
      assert RoomViews(rooms, conns) == S.Start(|rooms|).rooms;
    }

    function Room(r: nat): Hub
      requires r < |rooms|
    {
      rooms[r]
    }

    /** get_room_id, and the room of that name. */
    function RoomOf(p: PeerId): Hub
      requires home(p) < |rooms|
    {
      rooms[home(p)]
    }

    ghost predicate Valid()
      reads this, rooms
    {
      && (forall i :: 0 <= i < |rooms| ==> rooms[i].Valid() && rooms[i].repr <= conns)
      && (forall i, j :: 0 <= i < |rooms| && 0 <= j < |rooms| && i != j ==>
            rooms[i] != rooms[j] && rooms[i].repr !! rooms[j].repr)
      && StatsApart()
    }

    /** Every message has counters of its own. */
    ghost predicate StatsApart()
      reads this`msgStats, this`owned
    {
      && (forall k :: k in msgStats ==> msgStats[k] in owned)
      && (forall j, k :: j in msgStats && k in msgStats && j != k ==> msgStats[j] != msgStats[k])
    }

    ghost function View(): S.Hub
      requires Valid()
      reads this, rooms, conns
    {
      S.Hub(RoomViews(rooms, conns), broadcasters, broadcastMu, totalMsgCnt, msgStats.Keys, totalMsgSize,
            totalPeerCnt, issued)
    }

    ghost function Stats(): map<nat, Q.Stat>
      requires StatsApart()
      reads this`msgStats, this`owned, owned
    {
      map k | k in msgStats :: msgStats[k].View()
    }

    /** The step is enabled in the model. */
    ghost predicate Ready(e: S.Event)
      requires Valid()
      reads this, rooms, conns
    {
      S.Enabled(home, View(), e)
    }

    /** When one room changes, so does its place in the view. */
    twostate lemma OneRoomMore(r: nat)
      requires old(Valid()) && Valid() && r < |rooms| && View().(rooms := []) == old(View().(rooms := []))
      requires forall i :: 0 <= i < |rooms| && i != r ==> rooms[i].View() == old(rooms[i].View())
      ensures View() == S.WithRoom(old(View()), r, rooms[r].View())
    {
      assert RoomViews(rooms, conns) == old(RoomViews(rooms, conns))[r := rooms[r].View()];
    }

    twostate lemma OneRoom(r: nat)
      requires old(Valid()) && Valid() && r < |rooms| && unchanged(this)
      requires forall i :: 0 <= i < |rooms| && i != r ==> rooms[i].View() == old(rooms[i].View())
      ensures View() == S.WithRoom(old(View()), r, rooms[r].View())
    {
      OneRoomMore(r);
    }

    lemma RoomAt(r: nat)
      requires Valid() && r < |rooms|
      ensures |View().rooms| == |rooms| && View().rooms[r] == rooms[r].View()
      ensures rooms[r].View().panicked == rooms[r].panicked
    {
    }

    // ---------------------------------------------------------------- the three broadcasters

    method Advance(k: nat, stage: S.Stage)
      requires Valid() && k < |broadcasters|
      modifies this`broadcasters
      ensures Valid() && View() == S.Advance(old(View()), k, stage)
    {
      broadcasters := broadcasters[k := broadcasters[k].(stage := stage)];
    }

    method Spawn(targets: S.Targets, body: seq<Codec.byte>)
      requires Valid() && Ready(S.Spawn(targets, body))
      modifies this`broadcasters
      ensures Valid() && View() == S.Step(home, old(View()), S.Spawn(targets, body))
    {
      broadcasters := broadcasters + [S.Broadcaster(targets, body, S.Waiting)];
    }

    method Acquire(k: nat)
      requires Valid() && Ready(S.Acquire(k))
      modifies this`broadcastMu, this`broadcasters
      ensures Valid() && View() == S.Step(home, old(View()), S.Acquire(k))
    {
      broadcastMu := broadcastMu - 1;
      Advance(k, S.Entered);
    }

    method Number(k: nat)
      requires Valid() && Ready(S.Number(k))
      modifies this`totalMsgCnt, this`broadcasters, this`issued
      ensures Valid() && View() == S.Step(home, old(View()), S.Number(k))
    {
      totalMsgCnt := totalMsgCnt + 1;
      var msg := PushMsg(totalMsgCnt, broadcasters[k].body, !broadcasters[k].targets.SomePeers?);
      issued := issued + [msg];
      Advance(k, S.Numbered(msg));
    }

    method Install(id: nat, stat: AckStat)
      requires Valid() && stat !in owned && stat.View() == Q.Stat(0, 0)
      modifies this`msgStats, this`owned
      ensures Valid() && owned == old(owned) + {stat}
      ensures View() == old(View()).(recorded := old(View()).recorded + {id})
      ensures Stats() == old(Stats())[id := Q.Stat(0, 0)]
    {
      hide Hub.View, Hub.Valid;
      msgStats := msgStats[id := stat];
      owned := owned + {stat};
    }

    /** A fresh pair of counters. */
    method NewStat(id: nat)
      requires Valid()
      modifies this`msgStats, this`owned
      ensures Valid() && fresh(owned - old(owned))
      ensures View() == old(View()).(recorded := old(View()).recorded + {id})
      ensures Stats() == old(Stats())[id := Q.Stat(0, 0)]
    {
      var stat := new AckStat();
      hide View, Stats, StatsApart;
      Install(id, stat);
    }

    /** The message gets its counters; the loop that follows meets the rooms in the given order. */
    method Record(k: nat, order: seq<nat>)
      requires Valid() && Ready(S.Record(k, order))
      modifies this`msgStats, this`broadcasters, this`owned
      ensures Valid() && fresh(owned - old(owned))
      ensures View() == S.Step(home, old(View()), S.Record(k, order))
      ensures Stats() == old(Stats())[old(broadcasters[k].stage.msg.id) := Q.Stat(0, 0)]
    {
      var b := broadcasters[k];
      RecordInSteps(home, View(), k, order);
      hide S.Step, S.Enabled, S.Advance, View, Stats, StatsApart, Ready, Hub.Valid, Hub.View;
      NewStat(b.stage.msg.id);
      Advance(k, if b.targets.SomePeers? then S.ToPeers(b.stage.msg, b.targets.peers) else S.ToRooms(b.stage.msg, order));
    }

    method SendToRoom(r: nat, m: PushMsg)
      requires Valid() && r < |rooms| && M.Indexed(rooms[r].View()) && M.Enabled(rooms[r].View(), M.Enqueue(m))
      modifies Room(r)`broadcast
      ensures Valid() && View() == S.WithRoom(old(View()), r, M.Step(old(rooms[r].View()), M.Enqueue(m)))
    {
      rooms[r].Enqueue(m);
      OneRoom(r);
    }

    method SendToPeer(p: PeerId, m: PushMsg)
      requires Valid() && home(p) < |rooms|
      requires M.Indexed(RoomOf(p).View()) && M.Enabled(RoomOf(p).View(), M.PeerSend(p, m))
      modifies RoomOf(p)`panicked, RoomOf(p).repr
      ensures Valid()
      ensures View() == S.WithRoom(old(View()), home(p), M.Step(old(RoomOf(p).View()), M.PeerSend(p, m)))
    {
      hide M.Step, M.Enabled, M.Indexed, Hub.View, Hub.Valid, View;
      RoomOf(p).SendToPeer(p, m);
      OneRoom(home(p));
    }

    /** One iteration of a loop over rooms; ids that name no room are skipped. */
    method RoomSend(k: nat)
      requires Valid() && Ready(S.RoomSend(k))
      modifies this`broadcasters, rooms`broadcast
      ensures Valid() && View() == S.Step(home, old(View()), S.RoomSend(k))
    {
      var st := broadcasters[k].stage;
      Advance(k, st.(rooms := st.rooms[1..]));
      if st.rooms[0] < |rooms| {
        SendToRoom(st.rooms[0], st.msg);
      }
    }

    /** One iteration of the loop over peers: look the peer up in the room of its hash, and send to the connection
        found there, if any. */
    method PeerSend(k: nat)
      requires Valid() && Ready(S.PeerSend(k))
      modifies this`broadcasters, rooms`panicked, conns
      ensures Valid() && View() == S.Step(home, old(View()), S.PeerSend(k))
    {
      var st := broadcasters[k].stage;
      Advance(k, st.(peers := st.peers[1..]));
      SendToPeer(st.peers[0], st.msg);
    }

    method AddSize(k: nat)
      requires Valid() && Ready(S.AddSize(k))
      modifies this`totalMsgSize, this`broadcasters
      ensures Valid() && View() == S.Step(home, old(View()), S.AddSize(k))
    {
      totalMsgSize := totalMsgSize + |broadcasters[k].body|;
      Advance(k, S.Sized(broadcasters[k].stage.msg));
    }

    method Release(k: nat)
      requires Valid() && Ready(S.Release(k))
      modifies this`broadcastMu, this`broadcasters
      ensures Valid() && View() == S.Step(home, old(View()), S.Release(k))
    {
      broadcastMu := broadcastMu + 1;
      Advance(k, S.Finished);
    }

    // ---------------------------------------------------------------- registration

    /** c is a connection of the room that its peer id hashes to. */
    ghost predicate Knows(c: Connection)
      reads this, rooms
    {
      home(c.peerId) < |rooms| && RoomOf(c.peerId).Knows(c)
    }

    /** What a step of one room needs and does, seen from outside. */
    lemma LocalReady(r: nat, ev: M.Event)
      requires Valid() && Ready(S.Local(r, ev))
      ensures r < |rooms| && M.Indexed(rooms[r].View()) && M.Enabled(rooms[r].View(), ev)
      ensures S.Step(home, View(), S.Local(r, ev))
              == S.WithRoom(View(), r, M.Step(rooms[r].View(), ev)).(totalPeers := totalPeerCnt + L.CountedDelta(ev))
    {
    }

    method OpenIn(p: PeerId) returns (c: Connection)
      requires Valid() && home(p) < |rooms|
      requires M.Indexed(RoomOf(p).View()) && M.Enabled(RoomOf(p).View(), M.Open(p))
      modifies this`conns, RoomOf(p)`born, RoomOf(p)`repr
      ensures Valid() && Knows(c) && fresh(c) && c.peerId == p && conns == old(conns) + {c}
      ensures View() == S.WithRoom(old(View()), home(p), M.Step(old(RoomOf(p).View()), M.Open(p)))
    {
      hide M.Step, M.Enabled, M.Indexed, Hub.View;
      c := RoomOf(p).Open(p);
      conns := conns + {c};
      OneRoomMore(home(p));
    }

    /** A websocket connection is opened. */
    method Open(p: PeerId) returns (c: Connection)
      requires Valid() && Ready(S.Local(home(p), M.Open(p)))
      modifies this`conns, RoomOf(p)`born, RoomOf(p)`repr
      ensures Valid() && Knows(c) && fresh(c) && c.peerId == p && conns == old(conns) + {c}
      ensures View() == S.Step(home, old(View()), S.Local(home(p), M.Open(p)))
    {
      LocalReady(home(p), M.Open(p));
      hide M.Step, M.Enabled, M.Indexed, Ready, S.Step, S.Enabled;
      c := OpenIn(p);
    }

    method JoinRoom(c: Connection)
      requires Valid() && Knows(c)
      requires M.Indexed(RoomOf(c.peerId).View()) && M.Enabled(RoomOf(c.peerId).View(), M.Join(c.index))
      modifies RoomOf(c.peerId)`connections, RoomOf(c.peerId)`peercnt, RoomOf(c.peerId)`overwrites,
               RoomOf(c.peerId).repr
      ensures Valid()
      ensures View() == S.WithRoom(old(View()), home(c.peerId), M.Step(old(RoomOf(c.peerId).View()), M.Join(c.index)))
    {
      hide M.Step, M.Enabled, M.Indexed, Hub.View, Hub.Valid, View;
      RoomOf(c.peerId).Register(c);
      OneRoom(home(c.peerId));
    }

    /** The room takes the connection in. */
    method HandOver(c: Connection)
      requires Valid() && Knows(c) && Ready(S.Local(home(c.peerId), M.Join(c.index)))
      modifies RoomOf(c.peerId)`connections, RoomOf(c.peerId)`peercnt, RoomOf(c.peerId)`overwrites,
               RoomOf(c.peerId).repr
      ensures Valid() && View() == S.Step(home, old(View()), S.Local(home(c.peerId), M.Join(c.index)))
    {
      LocalReady(home(c.peerId), M.Join(c.index));
      hide M.Step, M.Enabled, M.Indexed, Ready, S.Step, S.Enabled;
      JoinRoom(c);
    }

    method LeaveRoom(c: Connection)
      requires Valid() && Knows(c)
      requires M.Indexed(RoomOf(c.peerId).View()) && M.Enabled(RoomOf(c.peerId).View(), M.Leave(c.index))
      modifies RoomOf(c.peerId)`connections, RoomOf(c.peerId)`peercnt, RoomOf(c.peerId)`panicked,
               RoomOf(c.peerId).repr
      ensures Valid()
      ensures View() == S.WithRoom(old(View()), home(c.peerId), M.Step(old(RoomOf(c.peerId).View()), M.Leave(c.index)))
    {
      hide M.Step, M.Enabled, M.Indexed, Hub.View, Hub.Valid, View;
      RoomOf(c.peerId).Unregister(c);
      OneRoom(home(c.peerId));
    }

    /** The room lets the connection go. */
    method GiveUp(c: Connection)
      requires Valid() && Knows(c) && Ready(S.Local(home(c.peerId), M.Leave(c.index)))
      modifies RoomOf(c.peerId)`connections, RoomOf(c.peerId)`peercnt, RoomOf(c.peerId)`panicked,
               RoomOf(c.peerId).repr
      ensures Valid() && View() == S.Step(home, old(View()), S.Local(home(c.peerId), M.Leave(c.index)))
    {
      LocalReady(home(c.peerId), M.Leave(c.index));
      hide M.Step, M.Enabled, M.Indexed, Ready, S.Step, S.Enabled;
      LeaveRoom(c);
    }

    method SetTotal(n: int)
      requires Valid()
      modifies this`totalPeerCnt
      ensures Valid() && View() == old(View()).(totalPeers := n)
    {
      totalPeerCnt := n;
    }

    ghost method Mark(c: Connection, coming: bool)
      requires Valid() && Knows(c) && M.Indexed(RoomOf(c.peerId).View())
      requires var ev := if coming then M.CountIn(c.index) else M.CountOut(c.index);
        M.Enabled(RoomOf(c.peerId).View(), ev)
      modifies c`phase
      ensures Valid()
      ensures var ev := if coming then M.CountIn(c.index) else M.CountOut(c.index);
        View() == S.WithRoom(old(View()), home(c.peerId), M.Step(old(RoomOf(c.peerId).View()), ev))
    {
      hide M.Step, M.Enabled, M.Indexed, Hub.View, Hub.Valid, View;
      if coming {
        RoomOf(c.peerId).CountIn(c);
      } else {
        RoomOf(c.peerId).CountOut(c);
      }
      OneRoom(home(c.peerId));
    }

    /** The total moves; the phase of the connection is bookkeeping. */
    method Count(c: Connection, coming: bool)
      requires Valid() && Knows(c)
      requires Ready(S.Local(home(c.peerId), if coming then M.CountIn(c.index) else M.CountOut(c.index)))
      modifies this`totalPeerCnt, c`phase
      ensures Valid()
      ensures var ev := if coming then M.CountIn(c.index) else M.CountOut(c.index);
        View() == S.Step(home, old(View()), S.Local(home(c.peerId), ev))
    {
      LocalReady(home(c.peerId), if coming then M.CountIn(c.index) else M.CountOut(c.index));
      hide M.Step, M.Enabled, M.Indexed, Ready, S.Step, S.Enabled, View, Hub.View, Hub.Valid;
      Mark(c, coming);
      SetTotal(if coming then totalPeerCnt + 1 else totalPeerCnt - 1);
    }

    /** A whole registration: first the room, then the total. */
    static ghost function Registered(home: PeerId -> nat, s: S.Hub, r: nat, i: nat): S.Hub
      requires S.Enabled(home, s, S.Local(r, M.Join(i)))
    {
      S.Step(home, S.Step(home, s, S.Local(r, M.Join(i))), S.Local(r, M.CountIn(i)))
    }

    /** A whole unregistration: first the room, then the total, unless the room's loop ended the process. */
    static ghost function Unregistered(home: PeerId -> nat, s: S.Hub, r: nat, i: nat): S.Hub
      requires S.Enabled(home, s, S.Local(r, M.Leave(i)))
    {
      var left := S.Step(home, s, S.Local(r, M.Leave(i)));
      if left.rooms[r].panicked then left else S.Step(home, left, S.Local(r, M.CountOut(i)))
    }

    static lemma RegisteredIs(home: PeerId -> nat, s: S.Hub, r: nat, i: nat)
      requires S.Enabled(home, s, S.Local(r, M.Join(i)))
      ensures var mid := S.Step(home, s, S.Local(r, M.Join(i)));
        && S.Enabled(home, mid, S.Local(r, M.CountIn(i)))
        && Registered(home, s, r, i) == S.Step(home, mid, S.Local(r, M.CountIn(i)))
    {
      assert S.Step(home, s, S.Local(r, M.Join(i))).rooms[r].conns[i].phase.Joined?;
    }

    static lemma UnregisteredIs(home: PeerId -> nat, s: S.Hub, r: nat, i: nat)
      requires S.Enabled(home, s, S.Local(r, M.Leave(i)))
      ensures var mid := S.Step(home, s, S.Local(r, M.Leave(i)));
        && r < |mid.rooms|
        && if mid.rooms[r].panicked then Unregistered(home, s, r, i) == mid
           else S.Enabled(home, mid, S.Local(r, M.CountOut(i)))
                && Unregistered(home, s, r, i) == S.Step(home, mid, S.Local(r, M.CountOut(i)))
    {
    }

    lemma ReadyIs(e: S.Event)
      requires Valid()
      ensures Ready(e) <==> S.Enabled(home, View(), e)
    {
    }

    method Register(c: Connection)
      requires Valid() && Knows(c) && Ready(S.Local(home(c.peerId), M.Join(c.index)))
      modifies this`totalPeerCnt, RoomOf(c.peerId)`connections, RoomOf(c.peerId)`peercnt,
               RoomOf(c.peerId)`overwrites, RoomOf(c.peerId).repr
      ensures Valid() && View() == Registered(home, old(View()), home(c.peerId), c.index)
    {
      RegisteredIs(home, View(), home(c.peerId), c.index);
      hide S.Step, S.Enabled, View, Ready, Registered, Valid;
      HandOver(c);
      ReadyIs(S.Local(home(c.peerId), M.CountIn(c.index)));
      Count(c, true);
    }

    method Unregister(c: Connection)
      requires Valid() && Knows(c) && Ready(S.Local(home(c.peerId), M.Leave(c.index)))
      modifies this`totalPeerCnt, RoomOf(c.peerId)`connections, RoomOf(c.peerId)`peercnt,
               RoomOf(c.peerId)`panicked, RoomOf(c.peerId).repr
      ensures Valid() && View() == Unregistered(home, old(View()), home(c.peerId), c.index)
    {
      UnregisteredIs(home, View(), home(c.peerId), c.index);
      hide S.Step, S.Enabled, View, Ready, Unregistered, Valid;
      GiveUp(c);
      RoomAt(home(c.peerId));
      ReadyIs(S.Local(home(c.peerId), M.CountOut(c.index)));
      if !RoomOf(c.peerId).panicked {
        Count(c, false);
      }
    }

    // ---------------------------------------------------------------- the room loops and the writers

    predicate IsLoopStep(ev: M.Event) {
      ev.Dequeue? || ev.Deliver? || ev.Done? || ev.Tick?
    }

    method RoomRuns(r: nat, ev: M.Event)
      requires Valid() && r < |rooms| && IsLoopStep(ev)
      requires M.Indexed(Room(r).View()) && M.Enabled(Room(r).View(), ev)
      modifies Room(r)`connections, Room(r)`broadcast, Room(r)`peercnt, Room(r)`throttle, Room(r)`position,
               Room(r)`panicked, Room(r)`log, Room(r).repr
      ensures Valid() && View() == S.WithRoom(old(View()), r, M.Step(old(Room(r).View()), ev))
    {
      hide M.Step, M.Enabled, M.Indexed, Hub.View, Hub.Valid, View;
      match ev {
        case Dequeue => Room(r).TakeBroadcast();
        case Deliver(p) => Room(r).Deliver(p);
        case Done => Room(r).FinishBroadcast();
        case Tick => Room(r).Tick();
      }
      OneRoom(r);
    }

    /** A step of the loop of room r, or of its rate limiter. */
    method RunRoom(r: nat, ev: M.Event)
      requires Valid() && r < |rooms| && IsLoopStep(ev) && Ready(S.Local(r, ev))
      modifies Room(r)`connections, Room(r)`broadcast, Room(r)`peercnt, Room(r)`throttle, Room(r)`position,
               Room(r)`panicked, Room(r)`log, Room(r).repr
      ensures Valid() && View() == S.Step(home, old(View()), S.Local(r, ev))
    {
      LocalReady(r, ev);
      hide M.Step, M.Enabled, M.Indexed, Ready, S.Step, S.Enabled;
      RoomRuns(r, ev);
    }

    method TakeIn(c: Connection, cfg: R.Config)
      requires Valid() && Knows(c) && c.Valid() && 1 <= c.notifyMu
      requires M.Indexed(RoomOf(c.peerId).View()) && M.Enabled(RoomOf(c.peerId).View(), M.Take(c.index))
      modifies c`send, c`writeMsgQ, c`owned, c`wire, c`notifyMu, c`toStats, c`taken, c`transmitted
      ensures Valid() && c.Valid()
      ensures View() == S.WithRoom(old(View()), home(c.peerId), M.Step(old(RoomOf(c.peerId).View()), M.Take(c.index)))
    {
      hide M.Step, M.Enabled, M.Indexed, Hub.View, Hub.Valid, View, Q.PutBooks;
      RoomOf(c.peerId).ConnsAt(c);
      RoomOf(c.peerId).Take(c, cfg);
      OneRoom(home(c.peerId));
    }

    /** The writer of c receives from its channel. */
    method Take(c: Connection, cfg: R.Config)
      requires Valid() && Knows(c) && c.Valid() && 1 <= c.notifyMu
      requires Ready(S.Local(home(c.peerId), M.Take(c.index)))
      modifies c`send, c`writeMsgQ, c`owned, c`wire, c`notifyMu, c`toStats, c`taken, c`transmitted
      ensures Valid() && c.Valid() && View() == S.Step(home, old(View()), S.Local(home(c.peerId), M.Take(c.index)))
    {
      LocalReady(home(c.peerId), M.Take(c.index));
      hide M.Step, M.Enabled, M.Indexed, Ready, S.Step, S.Enabled;
      TakeIn(c, cfg);
    }

    // ---------------------------------------------------------------- queries

    /** The invariant of the model, which every step keeps. */
    ghost predicate Sound()
      requires Valid()
      reads this, rooms, conns
    {
      S.Inv(home, View())
    }

    /** What a lookup through the rooms finds is what the flat map of all rooms has. */
    lemma FoundIsFlat(p: PeerId)
      requires Valid() && home(p) < |rooms| && Sound()
      ensures p in RoomOf(p).connections <==> p in F.Flat(View().rooms)
      ensures p in RoomOf(p).connections ==>
                && F.Flat(View().rooms)[p] == (home(p), RoomOf(p).connections[p].index)
                && RoomOf(p).connections[p].peerId == p
    {
      F.InvHomed(home, View());
      F.LookupIsFlat(home, View().rooms, p);
      RoomOf(p).MembersAt(p);
      assert M.MembersInv(View().rooms[home(p)]);
      hide F.Flat, Sound;
      if p in RoomOf(p).connections {
        RoomOf(p).ConnsAt(RoomOf(p).connections[p]);
      }
    }

    /** The peers of the flat map. */
    ghost function OnlinePeers(): set<PeerId>
      requires Valid()
      reads this, rooms, conns
    {
      F.Flat(View().rooms).Keys
    }

    method PeerIsOnline(p: PeerId) returns (online: bool)
      requires Valid() && home(p) < |rooms| && Sound()
      ensures online <==> p in OnlinePeers()
    {
      FoundIsFlat(p);
      online := p in RoomOf(p).connections;
    }

    method GetConnectionByPeerId(p: PeerId) returns (c: Connection?)
      requires Valid() && home(p) < |rooms| && Sound()
      ensures c == null <==> p !in F.Flat(View().rooms)
      ensures c != null ==> Knows(c) && c.peerId == p && F.Flat(View().rooms)[p] == (home(p), c.index)
    {
      FoundIsFlat(p);
      hide F.Flat, Sound, View;
      c := null;
      if p in RoomOf(p).connections {
        c := RoomOf(p).connections[p];
      }
    }

    /** The peers of the list that are online, comma-separated, but only if that takes at least 32 characters;
        a shorter answer is suppressed. */
    method PeersIsOnline(ids: seq<PeerId>) returns (answer: string)
      requires Valid() && (forall p :: p in ids ==> home(p) < |rooms|) && Sound()
      ensures var all := Joined(Among(ids, OnlinePeers())); answer == if |all| >= 32 then all else ""
    {
      var buf := "";
      hide *;
      ListedStart(ids, OnlinePeers());
      for i := 0 to |ids|
        invariant buf == Listed(Among(ids[..i], OnlinePeers()))
      {
        var online := PeerIsOnline(ids[i]);
        OneMoreListed(ids, OnlinePeers(), i);
        if online {
          buf := buf + ids[i] + ",";
        }
      }
      ListedEnd(ids, OnlinePeers());
      if |buf| > 32 {
        return buf[..|buf| - 1];
      }
      return "";
    }

    // ---------------------------------------------------------------- the statistics goroutine

    method CountSend(id: nat)
      requires Valid()
      modifies owned
      ensures Valid() && Stats() == Q.OneMoreSend(old(Stats()), id)
    {
      if id in msgStats {
        msgStats[id].sendMsgCnt := msgStats[id].sendMsgCnt + 1;
      }
    }

    method CountAck(id: nat)
      requires Valid()
      modifies owned
      ensures Valid() && Stats() == Q.OneMoreAck(old(Stats()), id)
    {
      if id in msgStats {
        msgStats[id].recvAckCnt := msgStats[id].recvAckCnt + 1;
      }
    }
  }
}
