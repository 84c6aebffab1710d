/** When no call names a peer twice, no connection is handed a peer message twice. */
module OnceOnly {
  import opened Messages
  import M = RoomModel
  import opened HubSystem
  import opened HubTheorems
  import opened HubLifecycle

  predicate Distinct(peers: seq<PeerId>) {
    forall i, j :: 0 <= i < j < |peers| ==> peers[i] != peers[j]
  }

  /** The hypothesis: the peers of every call are distinct. */
  predicate DistinctStep(e: Event) {
    e.Spawn? && e.targets.SomePeers? ==> Distinct(e.targets.peers)
  }

  /** Nothing addressed to the connection so far has this id or a later one. */
  ghost predicate Unused(c: M.Conn, id: nat) {
    forall x :: 0 <= x < |PeerPart(c.hist)| ==> PeerPart(c.hist)[x].id < id
  }

  ghost predicate CallOk(s: Hub, b: Broadcaster) {
    && (b.targets.SomePeers? ==> Distinct(b.targets.peers))
    && (b.stage.Numbered? ==> forall r, i :: IsConn(s, r, i) ==> Unused(ConnAt(s, r, i), b.stage.msg.id))
    && (b.stage.ToPeers? ==>
          && Distinct(b.stage.peers)
          && forall r, i :: IsConn(s, r, i) && ConnAt(s, r, i).peer in b.stage.peers ==> Unused(ConnAt(s, r, i), b.stage.msg.id))
  }

  ghost predicate OnceInv(s: Hub) {
    && (forall r, i :: IsConn(s, r, i) ==> StrictlyOrdered(PeerPart(ConnAt(s, r, i).hist)))
    && (forall k :: 0 <= k < |s.broadcasters| ==> CallOk(s, s.broadcasters[k]))
  }

  lemma HistKept(room: M.Room, ev: M.Event, i: nat)
    requires M.MembersInv(room) && M.Enabled(room, ev) && !ev.Deliver? && !ev.PeerSend? && i < |room.conns|
    ensures i < |M.Step(room, ev).conns| && M.Step(room, ev).conns[i].hist == room.conns[i].hist
  {
    if ev.Join? {
      assert M.Register(room, ev.i).conns[i].hist == room.conns[i].hist;
    } else if ev.Leave? {
      assert M.Unregister(room, ev.i).conns[i].hist == room.conns[i].hist;
    }
  }

  /** The messages addressed to a connection of the peer before and after the event. */
  predicate Addressed(ev: M.Event, peer: PeerId, before: seq<PushMsg>, after: seq<PushMsg>) {
    || after == before
    || (ev.PeerSend? && peer == ev.peer && after == before + if ev.m.isBrAll then [] else [ev.m])
  }

  lemma PeerSendOnHist(room: M.Room, peer: PeerId, m: PushMsg, i: nat)
    requires M.MembersInv(room) && M.Enabled(room, M.PeerSend(peer, m)) && i < |room.conns|
    ensures var t := M.Step(room, M.PeerSend(peer, m));
      && |t.conns| == |room.conns| && t.conns[i].peer == room.conns[i].peer
      && Addressed(M.PeerSend(peer, m), room.conns[i].peer, PeerPart(room.conns[i].hist), PeerPart(t.conns[i].hist))
  {
    PartsOfAppend(room.conns[i].hist, m);
    hide PeerPart;
  }

  lemma DeliverOnHist(room: M.Room, peer: PeerId, i: nat)
    requires M.MembersInv(room) && M.Enabled(room, M.Deliver(peer)) && i < |room.conns| && room.delivery.msg.isBrAll
    ensures var t := M.Step(room, M.Deliver(peer));
      && |t.conns| == |room.conns| && t.conns[i].peer == room.conns[i].peer
      && PeerPart(t.conns[i].hist) == PeerPart(room.conns[i].hist)
  {
    PartsOfAppend(room.conns[i].hist, room.delivery.msg);
    hide PeerPart;
  }

  /** A room's step adds to the addressed messages of a connection only by a send to its peer. */
  lemma PeerPartStep(room: M.Room, ev: M.Event, issued: seq<PushMsg>, i: nat)
    requires M.RoomInv(room, issued) && M.Enabled(room, ev) && i < |M.Step(room, ev).conns|
    ensures i >= |room.conns| ==> PeerPart(M.Step(room, ev).conns[i].hist) == []
    ensures i < |room.conns| ==>
              && M.Step(room, ev).conns[i].peer == room.conns[i].peer
              && Addressed(ev, room.conns[i].peer, PeerPart(room.conns[i].hist), PeerPart(M.Step(room, ev).conns[i].hist))
  {
    M.StepKeepsPeers(room, ev);
    if i < |room.conns| {
      hide M.Step, PeerPart;
      if ev.PeerSend? {
        PeerSendOnHist(room, ev.peer, ev.m, i);
      } else if ev.Deliver? {
        DeliverOnHist(room, ev.peer, i);
      } else {
        HistKept(room, ev, i);
      }
    }
  }

  /** What a step does to the messages addressed to a connection. */
  ghost predicate HistStep(s: Hub, e: Event, t: Hub, r: nat, i: nat)
    requires IsConn(t, r, i)
  {
    if !IsConn(s, r, i) then PeerPart(ConnAt(t, r, i).hist) == []
    else
      var a, b := PeerPart(ConnAt(s, r, i).hist), PeerPart(ConnAt(t, r, i).hist);
      && ConnAt(t, r, i).peer == ConnAt(s, r, i).peer
      && (b == a
          || (e.PeerSend? && At(s, e.k) && s.broadcasters[e.k].stage.ToPeers? && s.broadcasters[e.k].stage.peers != []
              && ConnAt(s, r, i).peer == s.broadcasters[e.k].stage.peers[0]
              && b == a + [s.broadcasters[e.k].stage.msg]))
  }

  lemma StepOnHist(home: PeerId -> nat, s: Hub, e: Event, r: nat, i: nat)
    requires Inv(home, s) && Enabled(home, s, e) && IsConn(Step(home, s, e), r, i)
    ensures HistStep(s, e, Step(home, s, e), r, i)
  {
    StepIsRoomStep(home, s, e);
    var t := Step(home, s, e);
    hide Step, Enabled;
    var re := RoomEvent(home, s, e);
    if re.Some? && re.value.0 == r {
      assert M.RoomInv(s.rooms[r], s.issued);
      PeerPartStep(s.rooms[r], re.value.1, s.issued, i);
      if e.PeerSend? {
        assert StageOk(s.broadcasters[e.k], s.issued);
      }
    }
  }

  lemma StrictAppend(a: seq<PushMsg>, m: PushMsg)
    requires StrictlyOrdered(a) && forall x :: 0 <= x < |a| ==> a[x].id < m.id
    ensures StrictlyOrdered(a + [m])
  {
  }

  lemma StepKeepsStrict(home: PeerId -> nat, s: Hub, e: Event, r: nat, i: nat)
    requires Inv(home, s) && OnceInv(s) && Enabled(home, s, e) && IsConn(Step(home, s, e), r, i)
    ensures StrictlyOrdered(PeerPart(ConnAt(Step(home, s, e), r, i).hist))
  {
    StepOnHist(home, s, e, r, i);
    hide Step, Enabled, Inv;
    if e.PeerSend? && IsConn(s, r, i) {
      assert At(s, e.k) ==> CallOk(s, s.broadcasters[e.k]);
      if At(s, e.k) && s.broadcasters[e.k].stage.ToPeers? {
        var a, m := PeerPart(ConnAt(s, r, i).hist), s.broadcasters[e.k].stage.msg;
        if Unused(ConnAt(s, r, i), m.id) {
          StrictAppend(a, m);
        }
      }
    }
  }

  /** How a broadcaster that holds a peer message gets to hold it. */
  ghost predicate CallMoves(s: Hub, e: Event, k: nat, b: Broadcaster, c: Broadcaster) {
    && c.targets == b.targets
    && (c.stage.Numbered? ==>
          if b.stage.Numbered? then c == b && !e.PeerSend? else !e.PeerSend? && c.stage.msg.id == s.counter + 1)
    && (c.stage.ToPeers? ==>
          && (b.stage.ToPeers? || b.stage.Numbered?) && c.stage.msg == b.stage.msg
          && if b.stage.Numbered? then !e.PeerSend? && b.targets.SomePeers? && c.stage.peers == b.targets.peers
             else if e.PeerSend? then k == e.k && b.stage.peers != [] && c.stage.peers == b.stage.peers[1..]
             else c.stage.peers == b.stage.peers)
  }

  lemma StepOnCall(home: PeerId -> nat, s: Hub, e: Event, k: nat)
    requires Inv(home, s) && Enabled(home, s, e) && k < |s.broadcasters|
    ensures k < |Step(home, s, e).broadcasters|
    ensures CallMoves(s, e, k, s.broadcasters[k], Step(home, s, e).broadcasters[k])
  {
    hide M.Step, M.Enabled, M.Indexed, RoomsInv, IssuedInv, RecordedInv;
    var b := s.broadcasters[k];
    if e.PeerSend? && b.stage.Inside() {
      AtMostOneInside(s, k, e.k);
    }
  }

  ghost predicate HistSteps(s: Hub, e: Event, t: Hub) {
    forall r, i :: IsConn(t, r, i) ==> HistStep(s, e, t, r, i)
  }

  /** Once a message has gone to its peer, no connection still to be served has seen it. */
  lemma CallKept(s: Hub, e: Event, t: Hub, k: nat, b: Broadcaster, c: Broadcaster)
    requires HistSteps(s, e, t) && CallMoves(s, e, k, b, c) && CallOk(s, b)
    requires e.PeerSend? ==> At(s, e.k) && (k == e.k ==> b == s.broadcasters[k])
    requires forall r, i :: IsConn(s, r, i) ==> Unused(ConnAt(s, r, i), s.counter + 1)
    ensures CallOk(t, c)
  {
    hide PeerPart;
  }

  lemma StepKeepsCall(home: PeerId -> nat, s: Hub, e: Event, k: nat)
    requires Inv(home, s) && OnceInv(s) && Enabled(home, s, e) && k < |s.broadcasters|
    ensures k < |Step(home, s, e).broadcasters|
    ensures CallOk(Step(home, s, e), Step(home, s, e).broadcasters[k])
  {
    var t := Step(home, s, e);
    assert e.PeerSend? ==> At(s, e.k);
    hide Step, Enabled, Inv, HistStep, CallOk, CallMoves, Unused;
    forall r: nat, i: nat | IsConn(t, r, i)
      ensures HistStep(s, e, t, r, i)
    {
      StepOnHist(home, s, e, r, i);
    }
    StepOnCall(home, s, e, k);
    NewIdUnused(home, s);
    CallKept(s, e, t, k, s.broadcasters[k], t.broadcasters[k]);
  }

  lemma NewIdUnused(home: PeerId -> nat, s: Hub)
    requires Inv(home, s)
    ensures forall r, i :: IsConn(s, r, i) ==> Unused(ConnAt(s, r, i), s.counter + 1)
  {
    forall r: nat, i: nat | IsConn(s, r, i)
      ensures Unused(ConnAt(s, r, i), s.counter + 1)
    {
      assert M.RoomInv(s.rooms[r], s.issued) && M.ConnInv(s.rooms[r], s.issued, i);
      assert Genuine(PeerPart(ConnAt(s, r, i).hist), s.issued);
    }
  }

  lemma StepKeepsOnce(home: PeerId -> nat, s: Hub, e: Event)
    requires Inv(home, s) && OnceInv(s) && Enabled(home, s, e) && DistinctStep(e)
    ensures OnceInv(Step(home, s, e))
  {
    var t := Step(home, s, e);
    forall r: nat, i: nat | IsConn(t, r, i)
      ensures StrictlyOrdered(PeerPart(ConnAt(t, r, i).hist))
    {
      StepKeepsStrict(home, s, e, r, i);
    }
    forall k | 0 <= k < |t.broadcasters|
      ensures CallOk(t, t.broadcasters[k])
    {
      if k < |s.broadcasters| {
        StepKeepsCall(home, s, e, k);
      } else {
        StepMoves(home, s, e);
      }
    }
  }

  lemma {:induction false} OnceRunInv(home: PeerId -> nat, n: nat, states: seq<Hub>, events: seq<Event>, t: nat)
    requires IsRun(home, n, states, events) && t < |states|
    requires forall u :: 0 <= u < |events| ==> DistinctStep(events[u])
    ensures OnceInv(states[t])
  {
    if t == 0 {
      hide Enabled, Step;
    } else {
      hide *;
      OnceRunInv(home, n, states, events, t - 1);
      StepInRun(home, n, states, events, t);
      StepKeepsOnce(home, states[t - 1], events[t - 1]);
    }
  }

  /** In every run whose calls name no peer twice, the ids of the messages addressed to a connection go strictly up:
      no message is put into its channel twice. */
  lemma NoPeerMessageTwice(home: PeerId -> nat, n: nat, states: seq<Hub>, events: seq<Event>, t: nat, r: nat, i: nat)
    requires IsRun(home, n, states, events) && t < |states| && IsConn(states[t], r, i)
    requires forall u :: 0 <= u < |events| ==> DistinctStep(events[u])
    ensures var h := PeerPart(ConnAt(states[t], r, i).hist);
      StrictlyOrdered(h) && forall x, y :: 0 <= x < |h| && 0 <= y < |h| && h[x].id == h[y].id ==> x == y
  {
    OnceRunInv(home, n, states, events, t);
  }
}
