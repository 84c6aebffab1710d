/** The connections over whole runs: counters, closed channels, and what reusing a peer id too early does. */
module HubLifecycle {
  import opened Messages
  import opened Sums
  import M = RoomModel
  import L = RoomLife
  import opened HubSystem
  import opened HubTheorems

  /** The room-level step inside a step of the hub. */
  function RoomEvent(home: PeerId -> nat, s: Hub, e: Event): Option<(nat, M.Event)> {
    match e
    case Local(r, ev) => Some((r, ev))
    case RoomSend(k) =>
      if At(s, k) && s.broadcasters[k].stage.ToRooms? && s.broadcasters[k].stage.rooms != []
         && s.broadcasters[k].stage.rooms[0] < |s.rooms|
      then Some((s.broadcasters[k].stage.rooms[0], M.Enqueue(s.broadcasters[k].stage.msg))) else None
    case PeerSend(k) =>
      if At(s, k) && s.broadcasters[k].stage.ToPeers? && s.broadcasters[k].stage.peers != []
      then Some((home(s.broadcasters[k].stage.peers[0]), M.PeerSend(s.broadcasters[k].stage.peers[0], s.broadcasters[k].stage.msg)))
      else None
    case _ => None
  }

  /** A step of the hub is a step of at most one room. */
  lemma StepIsRoomStep(home: PeerId -> nat, s: Hub, e: Event)
    requires Enabled(home, s, e)
    ensures var t := Step(home, s, e);
      match RoomEvent(home, s, e)
      case None => t.rooms == s.rooms && t.totalPeers == s.totalPeers
      case Some(re) =>
        && re.0 < |s.rooms| && M.Enabled(s.rooms[re.0], re.1)
        && t.rooms == s.rooms[re.0 := M.Step(s.rooms[re.0], re.1)]
        && t.totalPeers == s.totalPeers + L.CountedDelta(re.1)
        && (if e.Local? then re == (e.r, e.ev) else !re.1.Join?)
  {
    hide M.Step, M.Enabled, M.Indexed;
  }

  function PeerCnt(room: M.Room): int { room.peercnt }

  function CountedIn(room: M.Room): int { Total(room.conns, L.Counted) }

  // ---------------------------------------------------------------- the peer counters

  /** The counters are sums over the connections. */
  ghost predicate CountersInv(s: Hub) {
    && (forall r :: 0 <= r < |s.rooms| ==> s.rooms[r].peercnt == Total(s.rooms[r].conns, L.Serving))
    && s.totalPeers == Total(s.rooms, CountedIn)
  }

  lemma StepKeepsCounters(home: PeerId -> nat, s: Hub, e: Event)
    requires Inv(home, s) && CountersInv(s) && Enabled(home, s, e)
    ensures CountersInv(Step(home, s, e))
  {
    hide MutexInv, StagesInv, IssuedInv, RecordedInv, Total;
    StepIsRoomStep(home, s, e);
    var t := Step(home, s, e);
    hide Step, Enabled;
    var re := RoomEvent(home, s, e);
    hide RoomEvent, M.Step, M.Enabled, M.Indexed, L.CountedDelta, M.RoomInv;
    if re.Some? {
      var (r, ev) := re.value;
      L.StepMovesCounts(s.rooms[r], ev, s.issued);
      TotalUpdate(s.rooms, r, t.rooms[r], CountedIn);
    }
  }

  lemma {:induction false} StartTotals(k: nat)
    ensures Total(seq(k, _ => M.EmptyRoom), CountedIn) == 0
  {
    if k != 0 {
      StartTotals(k - 1);
      var rooms := seq(k, _ => M.EmptyRoom);
      assert rooms[..k - 1] == seq(k - 1, _ => M.EmptyRoom);
      assert CountedIn(M.EmptyRoom) == 0;
    }
  }

  lemma {:induction false} CountersInRun(home: PeerId -> nat, n: nat, states: seq<Hub>, events: seq<Event>, t: nat)
    requires IsRun(home, n, states, events) && t < |states|
    ensures CountersInv(states[t])
  {
    if t == 0 {
      StartTotals(n);
      assert Total(M.EmptyRoom.conns, L.Serving) == 0;
    } else {
      CountersInRun(home, n, states, events, t - 1);
      RunInv(home, n, states, events, t - 1);
      assert Enabled(home, states[t - 1], events[t - 1]) && states[t] == Step(home, states[t - 1], events[t - 1]);
      StepKeepsCounters(home, states[t - 1], events[t - 1]);
    }
  }

  /** In every run a room's peer counter is the number of connections that registered and whose channel is still
      open. It is the size of the map plus the number of registrations that replaced an entry, so it is the size of
      the map exactly when none did. */
  lemma PeerCounter(home: PeerId -> nat, n: nat, states: seq<Hub>, events: seq<Event>, t: nat, r: nat)
    requires IsRun(home, n, states, events) && t < |states| && r < n
    ensures |states[t].rooms| == n
    ensures var room := states[t].rooms[r];
      && room.peercnt == Total(room.conns, L.Serving)
      && room.peercnt == |room.members| + room.overwrites
      && (room.peercnt == |room.members| <==> room.overwrites == 0)
  {
    RunInv(home, n, states, events, t);
    CountersInRun(home, n, states, events, t);
    assert M.CountInv(states[t].rooms[r]);
  }

  /** What a connection adds to the difference between the total and the room counters. */
  function Adrift(c: M.Conn): int {
    if c.closed && (c.phase.Active? || c.phase.Left?) then 1
    else if !c.closed && (c.phase.Joined? || c.phase.Gone?) then -1 else 0
  }

  function AdriftIn(room: M.Room): int { Total(room.conns, Adrift) }

  lemma {:induction false} CountersDiffer(rooms: seq<M.Room>)
    requires forall r :: 0 <= r < |rooms| ==> rooms[r].peercnt == Total(rooms[r].conns, L.Serving)
    ensures Total(rooms, CountedIn) == Total(rooms, PeerCnt) + Total(rooms, AdriftIn)
  {
    if rooms != [] {
      CountersDiffer(rooms[..|rooms| - 1]);
      TotalSum(rooms[|rooms| - 1].conns, L.Counted, L.Serving, Adrift);
    }
  }

  /** In every state of every run the total peer counter is the sum of the room counters, plus the connections that
      are closed but not counted out yet, minus those that are open but not counted in, or counted out already. */
  lemma TotalPeerCounter(home: PeerId -> nat, n: nat, states: seq<Hub>, events: seq<Event>, t: nat)
    requires IsRun(home, n, states, events) && t < |states|
    ensures states[t].totalPeers == Total(states[t].rooms, PeerCnt) + Total(states[t].rooms, AdriftIn)
  {
    CountersInRun(home, n, states, events, t);
    CountersDiffer(states[t].rooms);
  }

  // ---------------------------------------------------------------- closed channels

  /** A send on, or a close of, a closed channel has ended the process. */
  ghost predicate Ended(s: Hub) {
    exists r :: 0 <= r < |s.rooms| && s.rooms[r].panicked
  }

  /** A room loop handles the unregistration of a connection that was evicted before, while another connection holds
      its peer id. */
  predicate UnregistersEvicted(s: Hub, e: Event) {
    && e.Local? && e.ev.Leave? && e.r < |s.rooms| && e.ev.i < |s.rooms[e.r].conns|
    && s.rooms[e.r].conns[e.ev.i].evicted
    && s.rooms[e.r].conns[e.ev.i].peer in s.rooms[e.r].members
  }

  lemma RoomStepEnds(home: PeerId -> nat, s: Hub, e: Event)
    requires Inv(home, s) && Enabled(home, s, e)
    ensures var re := RoomEvent(home, s, e);
      && (UnregistersEvicted(s, e) ==> re.Some?)
      && (re.Some? ==> re.value.0 < |s.rooms| && M.Indexed(s.rooms[re.value.0]) && M.Enabled(s.rooms[re.value.0], re.value.1)
                       && (L.ClosesTwice(s.rooms[re.value.0], re.value.1) <==> UnregistersEvicted(s, e)))
  {
    hide Step, MutexInv, StagesInv, IssuedInv, RecordedInv, M.Step, M.RoomInv;
    StepIsRoomStep(home, s, e);
    var re := RoomEvent(home, s, e);
    assert re.Some? && re.value.1.Leave? ==> e.Local?;
    assert e.Local? ==> re == Some((e.r, e.ev));
  }

  /** In every run the next step of any goroutine ends the process exactly when it is that one step of a room loop;
      no send of a broadcaster ever does. */
  lemma PanicInRun(home: PeerId -> nat, n: nat, states: seq<Hub>, events: seq<Event>, t: nat, e: Event)
    requires IsRun(home, n, states, events) && t < |states| && Enabled(home, states[t], e)
    ensures Ended(Step(home, states[t], e)) <==> UnregistersEvicted(states[t], e)
  {
    RunInv(home, n, states, events, t);
    var s, s' := states[t], Step(home, states[t], e);
    RoomStepEnds(home, s, e);
    StepIsRoomStep(home, s, e);
    assert forall r :: 0 <= r < |s.rooms| ==> !s.rooms[r].panicked;
    var re := RoomEvent(home, s, e);
    hide Step, Enabled, RoomEvent, MutexInv, StagesInv, IssuedInv, RecordedInv, M.RoomInv, M.Step, UnregistersEvicted, L.ClosesTwice;
    if re.Some? {
      L.PanicExactly(s.rooms[re.value.0], re.value.1, s.issued);
      assert s'.rooms[re.value.0].panicked <==> UnregistersEvicted(s, e);
    }
  }

  // ---------------------------------------------------------------- who is in the map

  /** The step is a registration that finds its peer id in the map of its room. */
  predicate ReplacesStep(s: Hub, e: Event) {
    e.Local? && e.r < |s.rooms| && L.Replaces(s.rooms[e.r], e.ev)
  }

  /** A connection is in the map exactly while it is registered and not evicted, and then it is open; once its
      unregistration was handled it is closed. */
  predicate ConnExact(room: M.Room, i: nat)
    requires i < |room.conns|
  {
    var c := room.conns[i];
    && (M.IsMember(room, i) <==> c.Registered() && !c.evicted)
    && (M.IsMember(room, i) ==> !c.closed)
    && (c.phase.Left? || c.phase.Gone? ==> c.closed)
  }

  ghost predicate LifeExact(s: Hub) {
    forall r: nat, i: nat :: IsConn(s, r, i) ==> ConnExact(s.rooms[r], i)
  }

  ghost predicate LivesInv(s: Hub) {
    forall r :: 0 <= r < |s.rooms| ==> L.Lives(s.rooms[r]) && s.rooms[r].overwrites == 0
  }

  lemma LivesAreExact(home: PeerId -> nat, s: Hub)
    requires Inv(home, s) && LivesInv(s)
    ensures LifeExact(s)
  {
    forall r: nat, i: nat | IsConn(s, r, i)
      ensures ConnExact(s.rooms[r], i)
    {
      var room := s.rooms[r];
      assert M.RoomInv(room, s.issued) && M.ConnInv(room, s.issued, i) && L.ConnLife(room.conns[i]);
    }
  }

  lemma StepKeepsLives(home: PeerId -> nat, s: Hub, e: Event)
    requires Inv(home, s) && LivesInv(s) && Enabled(home, s, e) && !ReplacesStep(s, e)
    ensures LivesInv(Step(home, s, e))
  {
    StepIsRoomStep(home, s, e);
    var re := RoomEvent(home, s, e);
    assert re.Some? && re.value.1.Join? ==> e.Local?;
    hide Step, Enabled, RoomEvent, MutexInv, StagesInv, IssuedInv, RecordedInv, M.RoomInv, M.Step, L.Lives;
    if re.Some? {
      var (r, ev) := re.value;
      assert !L.Replaces(s.rooms[r], ev);
      L.StepKeepsLife(s.rooms[r], ev, s.issued);
      L.StepCountsReplacements(s.rooms[r], ev);
    }
  }

  lemma ReplacingIsNotExact(home: PeerId -> nat, s: Hub, e: Event)
    requires Inv(home, s) && Enabled(home, s, e) && ReplacesStep(s, e)
    ensures !LifeExact(Step(home, s, e))
  {
    var t := Step(home, s, e);
    var room := s.rooms[e.r];
    L.ReplacedIsStranded(room, e.ev.i, s.issued);
    var j := room.members[room.conns[e.ev.i].peer];
    hide Enabled, MutexInv, StagesInv, IssuedInv, RecordedInv, M.RoomInv, M.Step;
    assert IsConn(t, e.r, j) && !ConnExact(t.rooms[e.r], j);
  }

  lemma {:induction false} LivesInRun(home: PeerId -> nat, n: nat, states: seq<Hub>, events: seq<Event>, t: nat)
    requires IsRun(home, n, states, events) && t < |states|
    requires forall u :: 0 <= u < t ==> !ReplacesStep(states[u], events[u])
    ensures LivesInv(states[t]) && LifeExact(states[t])
  {
    if t != 0 {
      LivesInRun(home, n, states, events, t - 1);
      RunInv(home, n, states, events, t - 1);
      assert Enabled(home, states[t - 1], events[t - 1]) && states[t] == Step(home, states[t - 1], events[t - 1]);
      StepKeepsLives(home, states[t - 1], events[t - 1]);
    }
    RunInv(home, n, states, events, t);
    LivesAreExact(home, states[t]);
  }

  /** The exact condition, for every run and every point of it: at every state so far the maps hold exactly the
      connections that are registered and not evicted, all of them open, and every connection whose unregistration
      was handled is closed, if and only if no registration so far found its peer id in the map. */
  lemma LifecycleExactly(home: PeerId -> nat, n: nat, states: seq<Hub>, events: seq<Event>, t: nat)
    requires IsRun(home, n, states, events) && t < |states|
    ensures (forall u :: 0 <= u <= t ==> LifeExact(states[u]))
            <==> (forall u :: 0 <= u < t ==> !ReplacesStep(states[u], events[u]))
  {
    if forall u :: 0 <= u < t ==> !ReplacesStep(states[u], events[u]) {
      forall u | 0 <= u <= t
        ensures LifeExact(states[u])
      {
        LivesInRun(home, n, states, events, u);
      }
    } else {
      var u :| 0 <= u < t && ReplacesStep(states[u], events[u]);
      RunInv(home, n, states, events, u);
      assert Enabled(home, states[u], events[u]) && states[u + 1] == Step(home, states[u], events[u]);
      ReplacingIsNotExact(home, states[u], events[u]);
      assert !LifeExact(states[u + 1]);
    }
  }

  // ---------------------------------------------------------------- orderly runs

  /** Ids are reused in an orderly way in every step of the run. */
  ghost predicate IsOrderlyRun(home: PeerId -> nat, n: nat, states: seq<Hub>, events: seq<Event>) {
    && IsRun(home, n, states, events)
    && forall t :: 0 <= t < |events| ==> OrderlyStep(states[t], events[t])
  }

  predicate OrderlyStep(s: Hub, e: Event) {
    e.Local? ==> e.r < |s.rooms| && L.Orderly(s.rooms[e.r], e.ev)
  }

  predicate SoleInv(s: Hub) {
    forall r :: 0 <= r < |s.rooms| ==> L.Sole(s.rooms[r])
  }

  lemma OrderlyStepKeeps(home: PeerId -> nat, s: Hub, e: Event)
    requires Inv(home, s) && SoleInv(s) && Enabled(home, s, e) && OrderlyStep(s, e)
    ensures SoleInv(Step(home, s, e)) && !ReplacesStep(s, e)
  {
    StepIsRoomStep(home, s, e);
    var re := RoomEvent(home, s, e);
    assert re.Some? && re.value.1.Join? ==> e.Local?;
    assert e.Local? ==> re == Some((e.r, e.ev));
    assert re.Some? ==> L.Orderly(s.rooms[re.value.0], re.value.1);
    hide Step, Enabled, RoomEvent, OrderlyStep, MutexInv, StagesInv, IssuedInv, RecordedInv;
    hide M.RoomInv, M.Step, M.Enabled, M.Indexed, L.Sole, L.Orderly;
    if re.Some? {
      var (r, ev) := re.value;
      L.OrderlyReplacesNothing(s.rooms[r], ev, s.issued);
      L.StepKeepsSole(s.rooms[r], ev, s.issued);
    }
  }

  lemma {:induction false} OrderlyRunInv(home: PeerId -> nat, n: nat, states: seq<Hub>, events: seq<Event>, t: nat)
    requires IsOrderlyRun(home, n, states, events) && t < |states|
    ensures SoleInv(states[t])
    ensures forall u :: 0 <= u < t ==> !ReplacesStep(states[u], events[u])
  {
    if t != 0 {
      OrderlyRunInv(home, n, states, events, t - 1);
      RunInv(home, n, states, events, t - 1);
      assert Enabled(home, states[t - 1], events[t - 1]) && states[t] == Step(home, states[t - 1], events[t - 1]);
      assert OrderlyStep(states[t - 1], events[t - 1]);
      OrderlyStepKeeps(home, states[t - 1], events[t - 1]);
    }
  }

  /** When an id is registered again only after the unregistration of its previous connection, no closed channel is
      ever touched, the maps are exact, and a room's peer counter is the size of its map. */
  lemma OrderlyLifecycle(home: PeerId -> nat, n: nat, states: seq<Hub>, events: seq<Event>, t: nat, r: nat)
    requires IsOrderlyRun(home, n, states, events) && t < |states| && r < |states[t].rooms|
    ensures LifeExact(states[t]) && !states[t].rooms[r].panicked
    ensures states[t].rooms[r].peercnt == |states[t].rooms[r].members|
  {
    OrderlyRunInv(home, n, states, events, t);
    LivesInRun(home, n, states, events, t);
    RunInv(home, n, states, events, t);
    PeerCounter(home, n, states, events, t, r);
  }

  /** Evicted, and its unregistration not handled yet. */
  function Evicted(c: M.Conn): int { if c.phase.Active? && c.evicted then 1 else 0 }

  function EvictedIn(room: M.Room): int { Total(room.conns, Evicted) }

  /** No handler is between its two updates: handing a connection to the room, and counting it. */
  predicate Settled(c: M.Conn) { !c.phase.Joined? && !c.phase.Left? }

  lemma {:induction false} AdriftIsEvicted(conns: seq<M.Conn>)
    requires forall i :: 0 <= i < |conns| ==> L.ConnLife(conns[i]) && Settled(conns[i]) && (conns[i].evicted ==> conns[i].closed)
    ensures Total(conns, Adrift) == Total(conns, Evicted)
  {
    if conns != [] {
      AdriftIsEvicted(conns[..|conns| - 1]);
    }
  }

  lemma {:induction false} AdriftAreEvicted(rooms: seq<M.Room>)
    requires forall r :: 0 <= r < |rooms| ==> AdriftIn(rooms[r]) == EvictedIn(rooms[r])
    ensures Total(rooms, AdriftIn) == Total(rooms, EvictedIn)
  {
    if rooms != [] {
      AdriftAreEvicted(rooms[..|rooms| - 1]);
    }
  }

  /** As long as no registration found its id in the map: whenever no handler is between its two updates, the total
      peer counter is the sum of the room counters plus the evicted connections not yet unregistered. */
  lemma TotalCountsEvicted(home: PeerId -> nat, n: nat, states: seq<Hub>, events: seq<Event>, t: nat)
    requires IsRun(home, n, states, events) && t < |states|
    requires forall u :: 0 <= u < t ==> !ReplacesStep(states[u], events[u])
    requires forall r, i :: IsConn(states[t], r, i) ==> Settled(ConnAt(states[t], r, i))
    ensures states[t].totalPeers == Total(states[t].rooms, PeerCnt) + Total(states[t].rooms, EvictedIn)
  {
    TotalPeerCounter(home, n, states, events, t);
    LivesInRun(home, n, states, events, t);
    RunInv(home, n, states, events, t);
    var s := states[t];
    forall r | 0 <= r < |s.rooms|
      ensures AdriftIn(s.rooms[r]) == EvictedIn(s.rooms[r])
    {
      forall i | 0 <= i < |s.rooms[r].conns|
        ensures L.ConnLife(s.rooms[r].conns[i]) && Settled(s.rooms[r].conns[i])
        ensures s.rooms[r].conns[i].evicted ==> s.rooms[r].conns[i].closed
      {
        assert M.RoomInv(s.rooms[r], s.issued) && M.ConnInv(s.rooms[r], s.issued, i) && IsConn(s, r, i);
        assert Settled(ConnAt(s, r, i));
      }
      AdriftIsEvicted(s.rooms[r].conns);
    }
    AdriftAreEvicted(s.rooms);
  }
}
