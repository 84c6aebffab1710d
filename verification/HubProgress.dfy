/** When a broadcaster can go on: it waits for the mutex, for a full room or for a full connection, and for nothing
    else. */
module HubProgress {
  import opened Messages
  import opened Sums
  import M = RoomModel
  import L = RoomLife
  import opened HubSystem
  import opened HubTheorems
  import H = HubLifecycle
  import F = FlatIndex

  predicate StepOf(e: Event, k: nat) {
    !e.Spawn? && !e.Local? && e.k == k
  }

  ghost predicate CanMove(home: PeerId -> nat, s: Hub, k: nat) {
    exists e :: StepOf(e, k) && Enabled(home, s, e)
  }

  lemma {:induction false} NobodyInside(b: seq<Broadcaster>)
    requires forall j :: 0 <= j < |b| ==> !b[j].stage.Inside()
    ensures Total(b, InsideCount) == 0
  {
    if b != [] {
      NobodyInside(b[..|b| - 1]);
    }
  }

  /** The order of the loop over all rooms that takes them as they come. */
  lemma SomeOrder(n: nat) returns (order: seq<nat>)
    ensures IsPermutation(order, n)
  {
    order := seq(n, i => i);
    forall r | 0 <= r < n
      ensures r in order
    {
      assert order[r] == r;
    }
  }

  /** The only step that the broadcaster can be about to take. */
  function NextStep(b: Broadcaster, k: nat, order: seq<nat>): Event {
    match b.stage
    case Waiting => Acquire(k)
    case Entered => Number(k)
    case Numbered(_) => Record(k, if b.targets.SomeRooms? then b.targets.ids else order)
    case ToRooms(_, rooms) => if rooms == [] then AddSize(k) else RoomSend(k)
    case ToPeers(_, peers) => if peers == [] then AddSize(k) else PeerSend(k)
    case _ => Release(k)
  }

  lemma MovesByNextStep(home: PeerId -> nat, s: Hub, k: nat, order: seq<nat>)
    requires IsPermutation(order, |s.rooms|) && k < |s.broadcasters|
    ensures CanMove(home, s, k) <==> Enabled(home, s, NextStep(s.broadcasters[k], k, order))
  {
    hide M.Enabled, M.Indexed;
    var next := NextStep(s.broadcasters[k], k, order);
    if Enabled(home, s, next) {
      assert StepOf(next, k);
    }
    if e :| StepOf(e, k) && Enabled(home, s, e) {
      assert e == next || (e.Record? && next.Record?);
    }
  }

  /** The rooms' part of the question. */
  lemma RoomTakes(room: M.Room, m: PushMsg)
    requires M.Indexed(room) && !room.panicked
    ensures M.Enabled(room, M.Enqueue(m)) <==> |room.queue| < 4096
  {
  }

  lemma PeerTakes(room: M.Room, p: PeerId, m: PushMsg, issued: seq<PushMsg>)
    requires M.RoomInv(room, issued) && !room.panicked
    ensures M.Enabled(room, M.PeerSend(p, m)) <==> (p in room.members ==> |room.conns[room.members[p]].send| < 4096)
  {
    if p in room.members {
      L.MemberIsRegistered(room, p, issued);
    }
    hide M.RoomInv;
  }

  /** What a broadcaster asks of the mutex and of the rooms for its next step. */
  ghost predicate NextGoes(home: PeerId -> nat, s: Hub, k: nat)
    requires k < |s.broadcasters| && forall r :: 0 <= r < |s.rooms| ==> M.Indexed(s.rooms[r])
  {
    match s.broadcasters[k].stage
    case Waiting => s.mutex == 1
    case ToRooms(m, rooms) => rooms != [] && rooms[0] < |s.rooms| ==> M.Enabled(s.rooms[rooms[0]], M.Enqueue(m))
    case ToPeers(m, peers) =>
      peers != [] ==> home(peers[0]) < |s.rooms| && M.Enabled(s.rooms[home(peers[0])], M.PeerSend(peers[0], m))
    case Finished => false
    case _ => true
  }

  lemma MovesIfNextGoes(home: PeerId -> nat, s: Hub, k: nat)
    requires k < |s.broadcasters| && forall r :: 0 <= r < |s.rooms| ==> M.Indexed(s.rooms[r]) && !s.rooms[r].panicked
    ensures CanMove(home, s, k) <==> NextGoes(home, s, k)
  {
    var order := SomeOrder(|s.rooms|);
    MovesByNextStep(home, s, k, order);
    hide CanMove, M.Enabled, M.Indexed;
  }

  /** In every state of every run in which the process has not ended, a broadcaster can take a step unless it waits
      for another one to leave the critical section, for a room whose channel holds 4096 broadcasts, or for a
      connection whose channel holds 4096 messages; or it has finished. The hypothesis is that the hash names a
      room. */
  lemma BlockedExactly(home: PeerId -> nat, n: nat, states: seq<Hub>, events: seq<Event>, t: nat, k: nat)
    requires IsRun(home, n, states, events) && t < |states| && k < |states[t].broadcasters| && !H.Ended(states[t])
    requires forall p :: home(p) < n
    ensures |states[t].rooms| == n
    ensures var s := states[t];
      CanMove(home, s, k) <==>
      match s.broadcasters[k].stage
      case Waiting => forall j :: 0 <= j < |s.broadcasters| ==> !s.broadcasters[j].stage.Inside()
      case ToRooms(_, rooms) => rooms == [] || rooms[0] >= n || |s.rooms[rooms[0]].queue| < 4096
      case ToPeers(_, peers) =>
        || peers == [] || peers[0] !in F.Flat(s.rooms)
        || (IsConn(s, F.Flat(s.rooms)[peers[0]].0, F.Flat(s.rooms)[peers[0]].1)
            && |ConnAt(s, F.Flat(s.rooms)[peers[0]].0, F.Flat(s.rooms)[peers[0]].1).send| < 4096)
      case Finished => false
      case _ => true
  {
    RunInv(home, n, states, events, t);
    var s := states[t];
    RoomsGoOn(home, s);
    hide IsRun, CanMove, Inv, M.Enabled, M.Indexed;
    MovesIfNextGoes(home, s, k);
    match s.broadcasters[k].stage
    case Waiting => TokenIsFree(home, s);
    case ToRooms(m, rooms) =>
      if rooms != [] && rooms[0] < n {
        RoomTakes(s.rooms[rooms[0]], m);
      }
    case ToPeers(m, peers) =>
      if peers != [] {
        PeerGoesOn(home, s, peers[0], m);
      }
    case _ =>
  }

  lemma RoomsGoOn(home: PeerId -> nat, s: Hub)
    requires Inv(home, s) && !H.Ended(s)
    ensures forall r :: 0 <= r < |s.rooms| ==> M.Indexed(s.rooms[r]) && !s.rooms[r].panicked
  {
    forall r | 0 <= r < |s.rooms|
      ensures M.Indexed(s.rooms[r]) && !s.rooms[r].panicked
    {
      assert M.MembersInv(s.rooms[r]);
    }
  }

  /** The token is in the channel exactly when nobody is in the critical section. */
  lemma TokenIsFree(home: PeerId -> nat, s: Hub)
    requires Inv(home, s)
    ensures s.mutex == 1 <==> forall j :: 0 <= j < |s.broadcasters| ==> !s.broadcasters[j].stage.Inside()
  {
    if forall j :: 0 <= j < |s.broadcasters| ==> !s.broadcasters[j].stage.Inside() {
      NobodyInside(s.broadcasters);
    }
    if s.mutex == 1 {
      forall j | 0 <= j < |s.broadcasters|
        ensures !s.broadcasters[j].stage.Inside()
      {
        NoneInside(s, j);
      }
    }
  }

  lemma PeerGoesOn(home: PeerId -> nat, s: Hub, p: PeerId, m: PushMsg)
    requires Inv(home, s) && home(p) < |s.rooms| && !s.rooms[home(p)].panicked
    ensures M.Indexed(s.rooms[home(p)])
    ensures M.Enabled(s.rooms[home(p)], M.PeerSend(p, m)) <==>
            || p !in F.Flat(s.rooms)
            || (IsConn(s, F.Flat(s.rooms)[p].0, F.Flat(s.rooms)[p].1)
                && |ConnAt(s, F.Flat(s.rooms)[p].0, F.Flat(s.rooms)[p].1).send| < 4096)
  {
    F.InvHomed(home, s);
    F.LookupIsFlat(home, s.rooms, p);
    assert M.RoomInv(s.rooms[home(p)], s.issued);
    PeerTakes(s.rooms[home(p)], p, m, s.issued);
    hide Inv, F.Flat, M.Enabled, F.Homed;
  }
}
