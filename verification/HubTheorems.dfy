/** What holds of every run of the hub, for every number of rooms and every interleaving. */
module HubTheorems {
  import opened Messages
  import opened Sums
  import M = RoomModel
  import L = RoomLife
  import opened HubSystem

  /** `states` are the successive states of a run that takes the steps `events` from an empty hub of n rooms. */
  ghost predicate IsRun(home: PeerId -> nat, n: nat, states: seq<Hub>, events: seq<Event>) {
    && |states| == |events| + 1 && states[0] == Start(n)
    && forall t :: 0 <= t < |events| ==> Enabled(home, states[t], events[t]) && states[t + 1] == Step(home, states[t], events[t])
  }

  lemma {:induction false} RunInv(home: PeerId -> nat, n: nat, states: seq<Hub>, events: seq<Event>, t: nat)
    requires IsRun(home, n, states, events) && t < |states|
    ensures Inv(home, states[t]) && |states[t].rooms| == n
  {
    if t == 0 {
      StartInv(home, n);
    } else {
      RunInv(home, n, states, events, t - 1);
      assert Enabled(home, states[t - 1], events[t - 1]) && states[t] == Step(home, states[t - 1], events[t - 1]);
      StepKeepsInv(home, states[t - 1], events[t - 1]);
      StepKeepsRoomCount(home, states[t - 1], events[t - 1]);
    }
  }

  /** State t of a run comes from the state before it by an enabled step. */
  lemma StepInRun(home: PeerId -> nat, n: nat, states: seq<Hub>, events: seq<Event>, t: nat)
    requires IsRun(home, n, states, events) && 1 <= t < |states|
    ensures |states| == |events| + 1
    ensures Enabled(home, states[t - 1], events[t - 1]) && states[t] == Step(home, states[t - 1], events[t - 1])
    ensures Inv(home, states[t - 1])
  {
    RunInv(home, n, states, events, t - 1);
    hide Inv, Enabled, Step;
    var i := t - 1;
    assert Enabled(home, states[i], events[i]) && states[i + 1] == Step(home, states[i], events[i]);
  }

  lemma StepKeepsRoomCount(home: PeerId -> nat, s: Hub, e: Event)
    requires Enabled(home, s, e)
    ensures |Step(home, s, e).rooms| == |s.rooms|
  {
    hide M.Step, M.Enabled, M.Indexed, L.CountedDelta;
  }

  predicate IsConn(s: Hub, r: nat, i: nat) {
    r < |s.rooms| && i < |s.rooms[r].conns|
  }

  function ConnAt(s: Hub, r: nat, i: nat): M.Conn
    requires IsConn(s, r, i)
  {
    s.rooms[r].conns[i]
  }

  // ---------------------------------------------------------------- ordered broadcast

  lemma SliceOfLog(log: seq<PushMsg>, queue: seq<PushMsg>, from: nat, to: int, issued: seq<PushMsg>)
    requires from <= to <= |log| && Ordered(log + queue) && Genuine(log + queue, issued)
    ensures Ordered(log[from..to]) && Genuine(log[from..to], issued)
  {
    var all := log + queue;
    assert forall k :: 0 <= k < to - from ==> log[from..to][k] == all[from + k];
  }

  /** In every run, every connection is handed the room messages in the order of their ids, and so, separately,
      the messages addressed to it; each of them is, unchanged, the message issued under its id. */
  lemma OrderedBroadcast(home: PeerId -> nat, n: nat, states: seq<Hub>, events: seq<Event>, t: nat, r: nat, i: nat)
    requires IsRun(home, n, states, events) && t < |states| && IsConn(states[t], r, i)
    ensures var h := ConnAt(states[t], r, i).hist;
      && Ordered(RoomPart(h)) && Ordered(PeerPart(h))
      && Genuine(RoomPart(h), states[t].issued) && Genuine(PeerPart(h), states[t].issued)
  {
    RunInv(home, n, states, events, t);
    var room := states[t].rooms[r];
    assert M.ConnInv(room, states[t].issued, i);
    var c := room.conns[i];
    if !c.phase.Born? {
      var e := M.EndOf(c, M.IsPending(room, i), room.log);
      assert RoomPart(c.hist) == room.log[c.start..e];
      hide *;
      SliceOfLog(room.log, room.queue, c.start, e, states[t].issued);
    }
  }

  /** Two sequences that both hold m and m' hold them in the same order. */
  ghost predicate SameOrder(a: seq<PushMsg>, b: seq<PushMsg>, m: PushMsg, m': PushMsg) {
    forall x, x', y, y' :: 0 <= x < |a| && 0 <= x' < |a| && 0 <= y < |b| && 0 <= y' < |b| ==>
      a[x] == m && a[x'] == m' && b[y] == m && b[y'] == m' ==> (x < x' <==> y < y')
  }

  lemma OrderedAgree(a: seq<PushMsg>, b: seq<PushMsg>, m: PushMsg, m': PushMsg)
    requires Ordered(a) && Ordered(b) && m.id != m'.id
    ensures SameOrder(a, b, m, m')
  {
  }

  /** Any two connections, in any rooms, see the broadcasts that they have in common in the same order. */
  lemma SameOrderEverywhere(home: PeerId -> nat, n: nat, states: seq<Hub>, events: seq<Event>, t: nat,
                            r: nat, i: nat, r': nat, i': nat, m: PushMsg, m': PushMsg)
    requires IsRun(home, n, states, events) && t < |states|
    requires IsConn(states[t], r, i) && IsConn(states[t], r', i') && m.id != m'.id
    ensures var h, h' := ConnAt(states[t], r, i).hist, ConnAt(states[t], r', i').hist;
      SameOrder(RoomPart(h), RoomPart(h'), m, m') && SameOrder(PeerPart(h), PeerPart(h'), m, m')
  {
    hide *;
    OrderedBroadcast(home, n, states, events, t, r, i);
    OrderedBroadcast(home, n, states, events, t, r', i');
    var h, h' := ConnAt(states[t], r, i).hist, ConnAt(states[t], r', i').hist;
    OrderedAgree(RoomPart(h), RoomPart(h'), m, m');
    OrderedAgree(PeerPart(h), PeerPart(h'), m, m');
  }

  // ---------------------------------------------------------------- gap-free delivery

  /** What a connection accepted from its room is, message by message and without a gap, the stretch of the
      room's log from its registration to the point where it left the map; while it is in the map, that is
      everything up to the end of the log, except the message that the room loop is just handing round. The
      channel holds the untaken tail of what was accepted and never more than its capacity. */
  lemma GapFree(home: PeerId -> nat, n: nat, states: seq<Hub>, events: seq<Event>, t: nat, r: nat, i: nat)
    requires IsRun(home, n, states, events) && t < |states| && IsConn(states[t], r, i)
    ensures var room, c := states[t].rooms[r], ConnAt(states[t], r, i);
      && |c.send| <= M.SEND_CAP && |c.send| <= |c.hist| && c.hist[|c.hist| - |c.send|..] == c.send
      && (c.phase.Born? ==> c.hist == [])
      && (M.IsMember(room, i) <==> !c.phase.Born? && c.left.None?)
      && (!c.phase.Born? && c.left.Some? ==>
            0 <= c.start <= c.left.value <= |room.log| && RoomPart(c.hist) == room.log[c.start..c.left.value])
      && (M.IsMember(room, i) ==>
            var behind := if room.delivery.Delivering? && c.peer in room.delivery.todo then 1 else 0;
            c.start <= |room.log| - behind && RoomPart(c.hist) == room.log[c.start..|room.log| - behind])
  {
    RunInv(home, n, states, events, t);
    assert M.ConnInv(states[t].rooms[r], states[t].issued, i);
  }

  // ---------------------------------------------------------------- the mutex and the message ids

  /** The token of the mutex channel is in the channel or with exactly one broadcaster; the ids handed out are
      1, 2, .., counter. Whenever the token is in the channel, exactly these ids have a statistics record and
      the total size is the sum of all body lengths. */
  lemma MutexAndIds(home: PeerId -> nat, n: nat, states: seq<Hub>, events: seq<Event>, t: nat)
    requires IsRun(home, n, states, events) && t < |states|
    ensures var s := states[t];
      && s.mutex + Total(s.broadcasters, InsideCount) == 1
      && (forall i, j :: 0 <= i < |s.broadcasters| && 0 <= j < |s.broadcasters| ==>
            s.broadcasters[i].stage.Inside() && s.broadcasters[j].stage.Inside() ==> i == j && s.mutex == 0)
      && |s.issued| == s.counter && (forall k :: 0 <= k < s.counter ==> s.issued[k].id == k + 1)
      && (s.mutex == 1 ==>
            && (forall k :: k in s.recorded <==> 1 <= k <= s.counter)
            && s.totalSize == Total(s.issued, BodySize))
  {
    RunInv(home, n, states, events, t);
    var s := states[t];
    forall i, j | 0 <= i < |s.broadcasters| && 0 <= j < |s.broadcasters|
      && s.broadcasters[i].stage.Inside() && s.broadcasters[j].stage.Inside()
      ensures i == j && s.mutex == 0
    {
      AtMostOneInside(s, i, j);
    }
    if s.mutex == 1 {
      forall j | 0 <= j < |s.broadcasters|
        ensures !s.broadcasters[j].stage.Inside()
      {
        NoneInside(s, j);
      }
      NothingUnsized(s.broadcasters);
    }
  }

  lemma {:induction false} NothingUnsized(b: seq<Broadcaster>)
    requires forall j :: 0 <= j < |b| ==> !b[j].stage.Inside()
    ensures Total(b, Unsized) == 0
  {
    if b != [] {
      NothingUnsized(b[..|b| - 1]);
    }
  }

  // ---------------------------------------------------------------- the rate limit

  predicate IsDelivery(e: Event, r: nat) { e.Local? && e.r == r && e.ev.Deliver? }

  predicate IsTick(e: Event, r: nat) { e.Local? && e.r == r && e.ev.Tick? }

  /** Delivery attempts of room r among the steps from .. to - 1. */
  function Deliveries(events: seq<Event>, from: nat, to: nat, r: nat): nat
    requires from <= to <= |events|
  {
    if from == to then 0 else Deliveries(events, from, to - 1, r) + if IsDelivery(events[to - 1], r) then 1 else 0
  }

  function Ticks(events: seq<Event>, from: nat, to: nat, r: nat): nat
    requires from <= to <= |events|
  {
    if from == to then 0 else Ticks(events, from, to - 1, r) + if IsTick(events[to - 1], r) then 1 else 0
  }

  lemma TokenStep(home: PeerId -> nat, s: Hub, e: Event, r: nat)
    requires Enabled(home, s, e) && r < |s.rooms|
    ensures |Step(home, s, e).rooms| == |s.rooms|
    ensures Step(home, s, e).rooms[r].tokens + (if IsDelivery(e, r) then 1 else 0)
            <= s.rooms[r].tokens + if IsTick(e, r) then 1 else 0
  {
    forall ev | M.Enabled(s.rooms[r], ev)
      ensures M.Step(s.rooms[r], ev).tokens + (if ev.Deliver? then 1 else 0) <= s.rooms[r].tokens + if ev.Tick? then 1 else 0
    {
    }
    hide M.Step, M.Enabled, M.Indexed, L.CountedDelta;
  }

  lemma TokensInRun(home: PeerId -> nat, n: nat, states: seq<Hub>, events: seq<Event>, t: nat, r: nat)
    requires IsRun(home, n, states, events) && t < |states| && r < n
    ensures |states[t].rooms| == n && states[t].rooms[r].tokens <= M.BURST
    ensures 0 < t ==>
              && |states[t - 1].rooms| == n
              && states[t].rooms[r].tokens + (if IsDelivery(events[t - 1], r) then 1 else 0)
                 <= states[t - 1].rooms[r].tokens + (if IsTick(events[t - 1], r) then 1 else 0)
  {
    RunInv(home, n, states, events, t);
    assert M.CountInv(states[t].rooms[r]);
    if 0 < t {
      assert Enabled(home, states[t - 1], events[t - 1]) && states[t] == Step(home, states[t - 1], events[t - 1]);
      StepKeepsRoomCount(home, states[t - 1], events[t - 1]);
      TokenStep(home, states[t - 1], events[t - 1], r);
    }
  }

  /** In every window of every run a room makes at most as many delivery attempts as it has tokens at the start
      of the window, which is never more than the burst limit, plus the ticks in the window. */
  lemma {:induction false} RateLimit(home: PeerId -> nat, n: nat, states: seq<Hub>, events: seq<Event>, from: nat, to: nat, r: nat)
    requires IsRun(home, n, states, events) && from <= to < |states| && r < n
    ensures |states[from].rooms| == |states[to].rooms| == n
    ensures states[from].rooms[r].tokens <= M.BURST
    ensures Deliveries(events, from, to, r) + states[to].rooms[r].tokens
            <= states[from].rooms[r].tokens + Ticks(events, from, to, r)
  {
    hide Inv, Step, Enabled, IsDelivery, IsTick, IsRun;
    TokensInRun(home, n, states, events, from, r);
    TokensInRun(home, n, states, events, to, r);
    if from < to {
      RateLimit(home, n, states, events, from, to - 1, r);
    }
  }

  /** The ticks of room r among the steps from .. to - 1 that found fewer than 10000 tokens. */
  function UsefulTicks(states: seq<Hub>, events: seq<Event>, from: nat, to: nat, r: nat): nat
    requires from <= to <= |events| < |states|
  {
    if from == to then 0
    else
      var useful := IsTick(events[to - 1], r) && r < |states[to - 1].rooms| && states[to - 1].rooms[r].tokens < 10000;
      UsefulTicks(states, events, from, to - 1, r) + if useful then 1 else 0
  }

  lemma RoomTokenStep(room: M.Room, ev: M.Event)
    requires M.Indexed(room) && M.Enabled(room, ev)
    ensures M.Step(room, ev).tokens + (if ev.Deliver? then 1 else 0)
            == room.tokens + if ev.Tick? && room.tokens < 10000 then 1 else 0
    ensures ev.Deliver? ==> 1 <= room.tokens
  {
  }

  lemma TokenStepExactly(home: PeerId -> nat, s: Hub, e: Event, r: nat)
    requires Enabled(home, s, e) && r < |s.rooms|
    ensures |Step(home, s, e).rooms| == |s.rooms|
    ensures Step(home, s, e).rooms[r].tokens + (if IsDelivery(e, r) then 1 else 0)
            == s.rooms[r].tokens + if IsTick(e, r) && s.rooms[r].tokens < 10000 then 1 else 0
  {
    StepKeepsRoomCount(home, s, e);
    if e.Local? && e.r == r {
      RoomTokenStep(s.rooms[r], e.ev);
    } else if e.RoomSend? && s.broadcasters[e.k].stage.rooms[0] == r {
      RoomTokenStep(s.rooms[r], M.Enqueue(s.broadcasters[e.k].stage.msg));
    } else if e.PeerSend? && home(s.broadcasters[e.k].stage.peers[0]) == r {
      RoomTokenStep(s.rooms[r], M.PeerSend(s.broadcasters[e.k].stage.peers[0], s.broadcasters[e.k].stage.msg));
    }
    hide M.Step, M.Enabled, M.Indexed, L.CountedDelta;
  }

  /** The bucket of a room, exactly: over every window of every run, what is in it at the end plus what the delivery
      attempts took out is what was in it at the start plus one token for every tick that found it not full. */
  lemma {:induction false} TokenBucket(home: PeerId -> nat, n: nat, states: seq<Hub>, events: seq<Event>, from: nat, to: nat, r: nat)
    requires IsRun(home, n, states, events) && from <= to < |states| && r < n
    ensures |states| == |events| + 1 && |states[from].rooms| == |states[to].rooms| == n
    ensures states[to].rooms[r].tokens + Deliveries(events, from, to, r)
            == states[from].rooms[r].tokens + UsefulTicks(states, events, from, to, r)
  {
    hide Inv, Step, Enabled, IsDelivery, IsTick;
    RunInv(home, n, states, events, from);
    if from < to {
      StepInRun(home, n, states, events, to);
      hide IsRun;
      TokenBucket(home, n, states, events, from, to - 1, r);
      TokenStepExactly(home, states[to - 1], events[to - 1], r);
    }
  }

  // ---------------------------------------------------------------- capacities

  lemma RoomDeliversExactly(room: M.Room, p: PeerId, issued: seq<PushMsg>)
    requires M.RoomInv(room, issued) && M.Enabled(room, M.Deliver(p))
    ensures var i, r := room.members[p], M.Step(room, M.Deliver(p));
      var c, d := room.conns[i], r.conns[i];
      if |c.send| < 4096 then d == c.(send := c.send + [room.delivery.msg], hist := c.hist + [room.delivery.msg]) && M.IsMember(r, i)
      else d.evicted && d.closed && !M.IsMember(r, i) && (d.send, d.hist) == (c.send, c.hist) && |c.send| == 4096
  {
    assert M.ConnInv(room, issued, room.members[p]) && M.IsMember(room, room.members[p]);
    hide M.LogInv, M.CountInv, M.SliceInv, M.PeerOrderInv;
  }

  /** Delivering a broadcast to a connection puts it at the end of its channel while that holds fewer than 4096
      messages, and evicts the connection exactly when it holds 4096. */
  lemma DeliversExactly(home: PeerId -> nat, n: nat, states: seq<Hub>, events: seq<Event>, t: nat, r: nat, p: PeerId)
    requires IsRun(home, n, states, events) && t < |states| && r < n && Enabled(home, states[t], Local(r, M.Deliver(p)))
    ensures |states[t].rooms| == n && p in states[t].rooms[r].members
    ensures var room, room' := states[t].rooms[r], M.Step(states[t].rooms[r], M.Deliver(p));
      var i := room.members[p];
      var c, c' := room.conns[i], room'.conns[i];
      if |c.send| < 4096 then c'.send == c.send + [room.delivery.msg] && !c'.closed && M.IsMember(room', i)
      else |c.send| == 4096 && c'.evicted && c'.closed && c'.hist == c.hist && !M.IsMember(room', i)
  {
    RunInv(home, n, states, events, t);
    assert M.RoomInv(states[t].rooms[r], states[t].issued);
    assert M.ConnInv(states[t].rooms[r], states[t].issued, states[t].rooms[r].members[p]);
    RoomDeliversExactly(states[t].rooms[r], p, states[t].issued);
    hide Inv, IsRun, M.Step, M.RoomInv, M.SliceInv, M.PeerOrderInv;
  }

  /** An evicted connection had accepted at least 4096 messages, and exactly 4096 if its writer took none of them. */
  lemma EvictedWasFull(home: PeerId -> nat, n: nat, states: seq<Hub>, events: seq<Event>, t: nat, r: nat, i: nat)
    requires IsRun(home, n, states, events) && t < |states| && IsConn(states[t], r, i) && ConnAt(states[t], r, i).evicted
    ensures var c := ConnAt(states[t], r, i); 4096 <= |c.hist| && (c.send == c.hist ==> |c.hist| == 4096)
  {
    RunInv(home, n, states, events, t);
    assert M.ConnInv(states[t].rooms[r], states[t].issued, i);
  }
}
