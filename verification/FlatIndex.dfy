/** The sharded index of connections refines one flat map from peer ids to connections. */
module FlatIndex {
  import opened Messages
  import opened Sums
  import M = RoomModel
  import opened HubSystem
  import opened HubTheorems
  import opened HubLifecycle

  /** A connection, named by its room and its place in it. */
  type Ref = (nat, nat)

  ghost function RoomEntries(room: M.Room, r: nat): map<PeerId, Ref> {
    map p | p in room.members :: (r, room.members[p])
  }

  /** The union of the rooms' maps. */
  ghost function Flat(rooms: seq<M.Room>): map<PeerId, Ref> {
    if rooms == [] then map[]
    else Flat(rooms[..|rooms| - 1]) + RoomEntries(rooms[|rooms| - 1], |rooms| - 1)
  }

  /** Every entry of a room belongs there. */
  ghost predicate Homed(home: PeerId -> nat, rooms: seq<M.Room>) {
    forall r :: 0 <= r < |rooms| ==> forall p :: p in rooms[r].members ==> home(p) == r
  }

  lemma InvHomed(home: PeerId -> nat, s: Hub)
    requires Inv(home, s)
    ensures Homed(home, s.rooms)
  {
    forall r, p | 0 <= r < |s.rooms| && p in s.rooms[r].members
      ensures home(p) == r
    {
      assert M.MembersInv(s.rooms[r]);
    }
  }

  /** What the code looks up: the room that the hash names, then the peer in that room's map. */
  ghost function Lookup(home: PeerId -> nat, rooms: seq<M.Room>, p: PeerId): Option<Ref> {
    if home(p) < |rooms| && p in rooms[home(p)].members then Some((home(p), rooms[home(p)].members[p])) else None
  }

  ghost function Get(m: map<PeerId, Ref>, p: PeerId): Option<Ref> {
    if p in m then Some(m[p]) else None
  }

  /** A lookup through the rooms is a lookup in the flat map. */
  lemma {:induction false} LookupIsFlat(home: PeerId -> nat, rooms: seq<M.Room>, p: PeerId)
    requires Homed(home, rooms)
    ensures Lookup(home, rooms, p) == Get(Flat(rooms), p)
  {
    if rooms != [] {
      LookupIsFlat(home, rooms[..|rooms| - 1], p);
    }
  }

  lemma FlatByLookup(home: PeerId -> nat, rooms: seq<M.Room>, m: map<PeerId, Ref>)
    requires Homed(home, rooms)
    requires forall p :: Lookup(home, rooms, p) == Get(m, p)
    ensures Flat(rooms) == m
  {
    forall p: PeerId
      ensures Get(Flat(rooms), p) == Get(m, p)
    {
      LookupIsFlat(home, rooms, p);
    }
    assert forall p :: p in Flat(rooms) <==> Get(Flat(rooms), p).Some?;
    assert forall p :: p in m <==> Get(m, p).Some?;
    assert forall p :: p in m ==> Get(m, p).value == m[p] && Get(Flat(rooms), p).value == Flat(rooms)[p];
  }

  /** The operation on the flat map that a room's step amounts to. */
  ghost function FlatStep(flat: map<PeerId, Ref>, room: M.Room, r: nat, ev: M.Event): map<PeerId, Ref>
    requires M.Indexed(room) && M.Enabled(room, ev)
  {
    match ev
    case Join(i) => flat[room.conns[i].peer := (r, i)]
    case Leave(i) =>
      if M.Step(room, ev).panicked then flat else flat - {room.conns[i].peer}
    case Deliver(p) =>
      var c := room.conns[room.members[p]];
      if !c.closed && |c.send| >= M.SEND_CAP then flat - {c.peer} else flat
    case _ => flat
  }

  lemma StepOnMembers(room: M.Room, ev: M.Event)
    requires M.MembersInv(room) && M.Enabled(room, ev)
    ensures M.Step(room, ev).members ==
            if ev.Join? then room.members[room.conns[ev.i].peer := ev.i]
            else if ev.Leave? && !M.Step(room, ev).panicked then room.members - {room.conns[ev.i].peer}
            else if ev.Deliver? && !room.conns[room.members[ev.peer]].closed
                    && |room.conns[room.members[ev.peer]].send| >= M.SEND_CAP
              then room.members - {ev.peer}
            else room.members
  {
  }

  lemma RoomStepOnMembers(room: M.Room, r: nat, ev: M.Event)
    requires M.MembersInv(room) && M.Enabled(room, ev)
    ensures RoomEntries(M.Step(room, ev), r) == FlatStep(RoomEntries(room, r), room, r, ev)
  {
    StepOnMembers(room, ev);
    hide M.Step;
  }

  lemma FlatStepActsLocally(home: PeerId -> nat, rooms: seq<M.Room>, r: nat, ev: M.Event, p: PeerId)
    requires r < |rooms| && Homed(home, rooms) && M.MembersInv(rooms[r]) && M.Enabled(rooms[r], ev)
    requires forall i :: 0 <= i < |rooms[r].conns| ==> home(rooms[r].conns[i].peer) == r
    ensures Get(FlatStep(Flat(rooms), rooms[r], r, ev), p) ==
            if home(p) == r then Get(FlatStep(RoomEntries(rooms[r], r), rooms[r], r, ev), p) else Get(Flat(rooms), p)
  {
    LookupIsFlat(home, rooms, p);
    hide M.Step, M.Enabled;
  }

  lemma RoomStepOnFlat(home: PeerId -> nat, rooms: seq<M.Room>, r: nat, ev: M.Event)
    requires r < |rooms| && Homed(home, rooms) && M.MembersInv(rooms[r]) && M.Enabled(rooms[r], ev)
    requires forall i :: 0 <= i < |rooms[r].conns| ==> home(rooms[r].conns[i].peer) == r
    requires Homed(home, rooms[r := M.Step(rooms[r], ev)])
    ensures Flat(rooms[r := M.Step(rooms[r], ev)]) == FlatStep(Flat(rooms), rooms[r], r, ev)
  {
    var after, flat := rooms[r := M.Step(rooms[r], ev)], FlatStep(Flat(rooms), rooms[r], r, ev);
    RoomStepOnMembers(rooms[r], r, ev);
    forall p: PeerId
      ensures Lookup(home, after, p) == Get(flat, p)
    {
      FlatStepActsLocally(home, rooms, r, ev, p);
      LookupIsFlat(home, rooms, p);
      hide FlatStep, M.Step, M.Enabled;
      if home(p) == r {
        assert Lookup(home, after, p) == Get(RoomEntries(after[r], r), p);
      }
    }
    FlatByLookup(home, after, flat);
  }

  /** Every step of the hub is one operation on the flat map: a registration puts the connection under its peer
      id, an unregistration and an eviction remove the id, and nothing else changes it. */
  lemma StepOnFlat(home: PeerId -> nat, s: Hub, e: Event)
    requires Inv(home, s) && Enabled(home, s, e)
    ensures var re := RoomEvent(home, s, e);
      match re
      case None => Flat(Step(home, s, e).rooms) == Flat(s.rooms)
      case Some(re) =>
        && re.0 < |s.rooms| && M.Indexed(s.rooms[re.0]) && M.Enabled(s.rooms[re.0], re.1)
        && Flat(Step(home, s, e).rooms) == FlatStep(Flat(s.rooms), s.rooms[re.0], re.0, re.1)
  {
    StepIsRoomStep(home, s, e);
    StepKeepsInv(home, s, e);
    InvHomed(home, s);
    InvHomed(home, Step(home, s, e));
    hide Step, Enabled, FlatStep, M.Step, M.Enabled;
    var re := RoomEvent(home, s, e);
    hide RoomEvent;
    if re.Some? {
      RoomStepOnFlat(home, s.rooms, re.value.0, re.value.1);
    }
  }

  function MembersIn(room: M.Room): int { |room.members| }

  /** No peer is counted twice: the flat map has as many entries as the rooms together. */
  lemma {:induction false} FlatSize(home: PeerId -> nat, rooms: seq<M.Room>)
    requires Homed(home, rooms)
    ensures |Flat(rooms)| == Total(rooms, MembersIn)
  {
    if rooms != [] {
      var front, last := rooms[..|rooms| - 1], rooms[|rooms| - 1];
      FlatSize(home, front);
      var a, b := Flat(front), RoomEntries(last, |rooms| - 1);
      forall p | p in a
        ensures p !in b
      {
        LookupIsFlat(home, front, p);
      }
      assert (a + b).Keys == a.Keys + b.Keys && a.Keys !! b.Keys;
      assert b.Keys == last.members.Keys;
    }
  }

  /** A broadcast to all rooms, in whatever order the rooms are met, comes to the room of every entry of the flat
      map exactly once. */
  lemma BroadcastReachesFlat(home: PeerId -> nat, rooms: seq<M.Room>, order: seq<nat>, p: PeerId)
    requires Homed(home, rooms) && IsPermutation(order, |rooms|) && p in Flat(rooms)
    ensures exists x :: 0 <= x < |order| && order[x] < |rooms| && p in rooms[order[x]].members
    ensures forall x, y | 0 <= x < |order| && 0 <= y < |order| && order[x] < |rooms| && order[y] < |rooms| ::
              p in rooms[order[x]].members && p in rooms[order[y]].members ==> x == y
  {
    LookupIsFlat(home, rooms, p);
    assert home(p) in order;
  }

  /** When a room takes a message out of its channel, the peers it sets out to serve are its share of the flat map. */
  lemma RoomServesItsShare(home: PeerId -> nat, rooms: seq<M.Room>, r: nat, p: PeerId)
    requires Homed(home, rooms) && r < |rooms| && M.Indexed(rooms[r]) && M.Enabled(rooms[r], M.Dequeue)
    ensures p in M.Step(rooms[r], M.Dequeue).delivery.todo <==> p in Flat(rooms) && home(p) == r
  {
    LookupIsFlat(home, rooms, p);
  }
}
