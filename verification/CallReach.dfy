/** A finished call to peers has gone through its whole list: one send for every peer, in the order of the call, and
    what was put into a channel stays in its history. */
module CallReach {
  import opened Messages
  import M = RoomModel
  import opened HubSystem
  import opened HubTheorems
  import H = HubLifecycle
  import O = OnceOnly
  import F = FlatIndex
  import B = BroadcastReach

  /** The steps before t at which broadcaster k sends to a peer. */
  function PeerSends(events: seq<Event>, t: nat, k: nat): seq<nat>
    requires t <= |events|
  {
    if t == 0 then []
    else PeerSends(events, t - 1, k) + if events[t - 1] == PeerSend(k) then [t - 1] else []
  }

  lemma {:induction false} PeerSendAt(events: seq<Event>, t: nat, k: nat, x: nat)
    requires t <= |events| && x < |PeerSends(events, t, k)|
    ensures var u := PeerSends(events, t, k)[x];
      u < t && events[u] == PeerSend(k) && |PeerSends(events, u, k)| == x
  {
    if x < |PeerSends(events, t - 1, k)| {
      PeerSendAt(events, t - 1, k, x);
    }
  }

  lemma {:induction false} PeerSendsRise(events: seq<Event>, t: nat, k: nat, x: nat, y: nat)
    requires t <= |events| && x < y < |PeerSends(events, t, k)|
    ensures PeerSends(events, t, k)[x] < PeerSends(events, t, k)[y]
  {
    if y < |PeerSends(events, t - 1, k)| {
      PeerSendsRise(events, t - 1, k, x, y);
    } else {
      PeerSendAt(events, t - 1, k, x);
    }
  }

  lemma {:induction false} PeerSendsAll(events: seq<Event>, t: nat, k: nat, u: nat)
    requires u < t <= |events|
    ensures events[u] == PeerSend(k) <==> u in PeerSends(events, t, k)
  {
    if u < t - 1 {
      PeerSendsAll(events, t - 1, k, u);
    } else if u in PeerSends(events, u, k) {
      var x :| 0 <= x < |PeerSends(events, u, k)| && PeerSends(events, u, k)[x] == u;
      PeerSendAt(events, u, k, x);
    }
  }

  /** How far a call to peers is: `sends` of its peers have been served. */
  predicate Progress(b: Broadcaster, sends: nat) {
    b.targets.SomePeers? ==>
      match b.stage
      case ToPeers(_, peers) => sends <= |b.targets.peers| && peers == b.targets.peers[sends..]
      case ToRooms(_, _) => false
      case Sized(_) => sends == |b.targets.peers|
      case Finished => sends == |b.targets.peers|
      case _ => sends == 0
  }

  ghost predicate ProgressAt(s: Hub, k: nat, sends: nat) {
    if k < |s.broadcasters| then Progress(s.broadcasters[k], sends) else sends == 0
  }

  lemma StepKeepsProgress(home: PeerId -> nat, s: Hub, e: Event, k: nat, sends: nat)
    requires Enabled(home, s, e) && ProgressAt(s, k, sends)
    ensures ProgressAt(Step(home, s, e), k, sends + if e == PeerSend(k) then 1 else 0)
  {
    hide M.Step, M.Enabled, M.Indexed;
  }

  lemma {:induction false} ProgressInRun(home: PeerId -> nat, n: nat, states: seq<Hub>, events: seq<Event>, t: nat, k: nat)
    requires IsRun(home, n, states, events) && t < |states|
    ensures t <= |events| && ProgressAt(states[t], k, |PeerSends(events, t, k)|)
  {
    hide *;
    RunLength(home, n, states, events, k);
    if t != 0 {
      StepInRun(home, n, states, events, t);
      ProgressInRun(home, n, states, events, t - 1, k);
      OneMoreSend(events, t, k);
      StepKeepsProgress(home, states[t - 1], events[t - 1], k, |PeerSends(events, t - 1, k)|);
    }
  }

  lemma RunLength(home: PeerId -> nat, n: nat, states: seq<Hub>, events: seq<Event>, k: nat)
    requires IsRun(home, n, states, events)
    ensures |states| == |events| + 1 && PeerSends(events, 0, k) == [] && ProgressAt(states[0], k, 0)
  {
    hide Enabled, Step;
  }

  lemma OneMoreSend(events: seq<Event>, t: nat, k: nat)
    requires 1 <= t <= |events|
    ensures |PeerSends(events, t, k)| == |PeerSends(events, t - 1, k)| + if events[t - 1] == PeerSend(k) then 1 else 0
  {
  }

  lemma StepKeepsCall(home: PeerId -> nat, s: Hub, e: Event, k: nat)
    requires Enabled(home, s, e) && k < |s.broadcasters|
    ensures k < |Step(home, s, e).broadcasters|
    ensures Step(home, s, e).broadcasters[k].targets == s.broadcasters[k].targets
    ensures Step(home, s, e).broadcasters[k].body == s.broadcasters[k].body
  {
    StepMoves(home, s, e);
    hide Enabled, Step;
  }

  /** A broadcaster keeps its targets and its body. */
  lemma {:induction false} SameCall(home: PeerId -> nat, n: nat, states: seq<Hub>, events: seq<Event>, u: nat, t: nat, k: nat)
    requires IsRun(home, n, states, events) && u <= t < |states| && k < |states[u].broadcasters|
    ensures k < |states[t].broadcasters|
    ensures states[t].broadcasters[k].targets == states[u].broadcasters[k].targets
    ensures states[t].broadcasters[k].body == states[u].broadcasters[k].body
  {
    hide *;
    if u < t {
      SameCall(home, n, states, events, u, t - 1, k);
      StepInRun(home, n, states, events, t);
      StepKeepsCall(home, states[t - 1], events[t - 1], k);
    }
  }

  /** The message of a call to peers, from the moment when it gets its number. */
  ghost predicate MessageOf(b: Broadcaster, m: PushMsg, issued: seq<PushMsg>) {
    && (b.stage.HasMessage() || b.stage.Finished?)
    && (b.stage.HasMessage() ==> b.stage.msg == m)
    && m in issued && m.body == b.body && m.isBrAll == !b.targets.SomePeers?
  }

  lemma StepKeepsMessage(home: PeerId -> nat, s: Hub, e: Event, k: nat, m: PushMsg)
    requires Inv(home, s) && Enabled(home, s, e) && k < |s.broadcasters| && MessageOf(s.broadcasters[k], m, s.issued)
    ensures k < |Step(home, s, e).broadcasters| && MessageOf(Step(home, s, e).broadcasters[k], m, Step(home, s, e).issued)
    ensures e == PeerSend(k) ==> s.broadcasters[k].stage.ToPeers? && s.broadcasters[k].stage.msg == m
  {
    hide M.Step, M.Enabled, M.Indexed, Inv;
  }

  lemma NumberMakesMessage(home: PeerId -> nat, s: Hub, e: Event, k: nat) returns (m: PushMsg)
    requires Enabled(home, s, e) && k < |Step(home, s, e).broadcasters|
    requires k < |s.broadcasters| ==> s.broadcasters[k].stage.Waiting? || s.broadcasters[k].stage.Entered?
    requires Step(home, s, e).broadcasters[k].stage.HasMessage() || Step(home, s, e).broadcasters[k].stage.Finished?
    ensures e == Number(k) && k < |s.broadcasters| && s.broadcasters[k].stage.Entered?
    ensures MessageOf(Step(home, s, e).broadcasters[k], m, Step(home, s, e).issued)
  {
    hide M.Step, M.Enabled, M.Indexed;
    assert e == Number(k);
    m := Step(home, s, e).broadcasters[k].stage.msg;
  }

  lemma NoSendYet(home: PeerId -> nat, n: nat, states: seq<Hub>, events: seq<Event>, t: nat, k: nat)
    requires IsRun(home, n, states, events) && t < |states| && k < |states[t].broadcasters|
    requires states[t].broadcasters[k].targets.SomePeers? && states[t].broadcasters[k].stage.Entered?
    ensures t <= |events| && forall u :: 0 <= u < t ==> events[u] != PeerSend(k)
  {
    ProgressInRun(home, n, states, events, t, k);
    hide IsRun, PeerSends;
    assert PeerSends(events, t, k) == [];
    forall u | 0 <= u < t
      ensures events[u] != PeerSend(k)
    {
      PeerSendsAll(events, t, k, u);
    }
  }

  /** All sends of a call to peers carry its one message. */
  lemma {:induction false} OneMessage(home: PeerId -> nat, n: nat, states: seq<Hub>, events: seq<Event>, t: nat, k: nat)
    returns (m: PushMsg)
    requires IsRun(home, n, states, events) && t < |states| && k < |states[t].broadcasters|
    requires states[t].broadcasters[k].targets.SomePeers?
    requires states[t].broadcasters[k].stage.HasMessage() || states[t].broadcasters[k].stage.Finished?
    ensures |states| == |events| + 1 && MessageOf(states[t].broadcasters[k], m, states[t].issued)
    ensures forall u :: 0 <= u < t && events[u] == PeerSend(k) ==>
              At(states[u], k) && states[u].broadcasters[k].stage.ToPeers? && states[u].broadcasters[k].stage.msg == m
  {
    assert t != 0 by {
      hide Enabled, Step;
    }
    StepInRun(home, n, states, events, t);
    var s, e := states[t - 1], events[t - 1];
    if k < |s.broadcasters| && !s.broadcasters[k].stage.Waiting? && !s.broadcasters[k].stage.Entered? {
      SameCall(home, n, states, events, t - 1, t, k);
      hide *;
      m := OneMessage(home, n, states, events, t - 1, k);
      StepKeepsMessage(home, s, e, k, m);
    } else {
      hide IsRun, Enabled, Step, Inv, MessageOf;
      m := NumberMakesMessage(home, s, e, k);
      SameCall(home, n, states, events, t - 1, t, k);
      NoSendYet(home, n, states, events, t - 1, k);
    }
  }

  // ---------------------------------------------------------------- what was put into a channel

  /** The message is in the history of the connection that the flat map of s has for the peer. */
  ghost predicate Reached(s: Hub, t: Hub, p: PeerId, m: PushMsg) {
    p in F.Flat(s.rooms) ==>
      var (r, i) := F.Flat(s.rooms)[p];
      IsConn(t, r, i) && ConnAt(t, r, i).peer == p && m in PeerPart(ConnAt(t, r, i).hist)
  }

  lemma ConnsStay(home: PeerId -> nat, s: Hub, e: Event, r: nat, i: nat)
    requires Inv(home, s) && Enabled(home, s, e) && IsConn(s, r, i)
    ensures IsConn(Step(home, s, e), r, i) && O.HistStep(s, e, Step(home, s, e), r, i)
  {
    H.StepIsRoomStep(home, s, e);
    StepKeepsRoomCount(home, s, e);
    var re := H.RoomEvent(home, s, e);
    assert M.RoomInv(s.rooms[r], s.issued);
    if re.Some? && re.value.0 == r {
      M.StepKeepsPeers(s.rooms[r], re.value.1);
    }
    hide Step, Enabled, Inv, H.RoomEvent, M.Step, M.RoomInv, O.HistStep;
    O.StepOnHist(home, s, e, r, i);
  }

  lemma StepKeepsReached(home: PeerId -> nat, s0: Hub, s: Hub, e: Event, p: PeerId, m: PushMsg)
    requires Inv(home, s) && Enabled(home, s, e) && Reached(s0, s, p, m)
    ensures Reached(s0, Step(home, s, e), p, m)
  {
    if p in F.Flat(s0.rooms) {
      var (r, i) := F.Flat(s0.rooms)[p];
      ConnsStay(home, s, e, r, i);
      hide Step, Enabled, Inv, F.Flat, PeerPart;
    }
  }

  lemma SendsToPeer(home: PeerId -> nat, s: Hub, k: nat)
    requires Enabled(home, s, PeerSend(k))
    ensures At(s, k) && s.broadcasters[k].stage.ToPeers? && s.broadcasters[k].stage.peers != []
  {
    hide M.Enabled, M.Indexed;
  }

  lemma SendReaches(home: PeerId -> nat, s: Hub, k: nat)
    requires Inv(home, s) && Enabled(home, s, PeerSend(k))
    ensures At(s, k) && s.broadcasters[k].stage.ToPeers? && s.broadcasters[k].stage.peers != []
    ensures Reached(s, Step(home, s, PeerSend(k)), s.broadcasters[k].stage.peers[0], s.broadcasters[k].stage.msg)
  {
    SendsToPeer(home, s, k);
    hide Step, Enabled, Inv, F.Flat, PeerPart;
    B.PeerSendReaches(home, s, k);
  }

  lemma {:induction false} ReachedForGood(home: PeerId -> nat, n: nat, states: seq<Hub>, events: seq<Event>, u: nat, v: nat, k: nat)
    requires IsRun(home, n, states, events) && u < v < |states|
    requires u < |events| && events[u] == PeerSend(k)
    ensures At(states[u], k) && states[u].broadcasters[k].stage.ToPeers? && states[u].broadcasters[k].stage.peers != []
    ensures var st := states[u].broadcasters[k].stage; Reached(states[u], states[v], st.peers[0], st.msg)
  {
    StepInRun(home, n, states, events, v);
    hide *;
    if v == u + 1 {
      SendReaches(home, states[u], k);
    } else {
      ReachedForGood(home, n, states, events, u, v - 1, k);
      var st := states[u].broadcasters[k].stage;
      StepKeepsReached(home, states[u], states[v - 1], events[v - 1], st.peers[0], st.msg);
    }
  }

  /** A send of a call to peers finds the rest of its list. */
  lemma SendOfCall(home: PeerId -> nat, n: nat, states: seq<Hub>, events: seq<Event>, u: nat, t: nat, k: nat)
    requires IsRun(home, n, states, events) && u < t < |states| && k < |states[t].broadcasters|
    requires u < |events| && events[u] == PeerSend(k) && states[t].broadcasters[k].targets.SomePeers?
    ensures k < |states[u].broadcasters| && states[u].broadcasters[k].stage.ToPeers?
    ensures var sends, peers := |PeerSends(events, u, k)|, states[t].broadcasters[k].targets.peers;
      sends <= |peers| && states[u].broadcasters[k].stage.peers == peers[sends..]
  {
    hide Reached, PeerSends;
    ReachedForGood(home, n, states, events, u, u + 1, k);
    SameCall(home, n, states, events, u, t, k);
    ProgressInRun(home, n, states, events, u, k);
    hide IsRun;
  }

  /** In every run, once a call to peers has added the size of its message, which is before it gives the mutex back: it
      has made one send for every peer of its list, in the order of the list and no other send, all of them of the one
      message with the body of the call; and each of these peers that was online at its send has the message in the
      history of its connection from then on. */
  lemma CallServesEveryPeer(home: PeerId -> nat, n: nat, states: seq<Hub>, events: seq<Event>, t: nat, k: nat)
    returns (sends: seq<nat>, m: PushMsg)
    requires IsRun(home, n, states, events) && t < |states| && k < |states[t].broadcasters|
    requires states[t].broadcasters[k].targets.SomePeers?
    requires states[t].broadcasters[k].stage.Sized? || states[t].broadcasters[k].stage.Finished?
    ensures |states| == |events| + 1 && |sends| == |states[t].broadcasters[k].targets.peers|
    ensures forall x, y :: 0 <= x < y < |sends| ==> sends[x] < sends[y]
    ensures forall u :: 0 <= u < t ==> (events[u] == PeerSend(k) <==> u in sends)
    ensures forall x :: 0 <= x < |sends| ==> sends[x] < t && events[sends[x]] == PeerSend(k)
    ensures forall x :: 0 <= x < |sends| ==>
              var b, peers := states[sends[x]].broadcasters, states[t].broadcasters[k].targets.peers;
              k < |b| && b[k].stage.ToPeers? && b[k].stage.msg == m && b[k].stage.peers == peers[x..]
    ensures m in states[t].issued && m.body == states[t].broadcasters[k].body && !m.isBrAll
    ensures forall x, v :: 0 <= x < |sends| && sends[x] < v < |states| ==>
              Reached(states[sends[x]], states[v], states[t].broadcasters[k].targets.peers[x], m)
  {
    sends := PeerSends(events, t, k);
    m := OneMessage(home, n, states, events, t, k);
    ProgressInRun(home, n, states, events, t, k);
    var peers := states[t].broadcasters[k].targets.peers;
    hide IsRun, Reached, PeerSends;
    forall x, y | 0 <= x < y < |sends|
      ensures sends[x] < sends[y]
    {
      PeerSendsRise(events, t, k, x, y);
    }
    forall u | 0 <= u < t
      ensures events[u] == PeerSend(k) <==> u in sends
    {
      PeerSendsAll(events, t, k, u);
    }
    hide Progress, MessageOf;
    forall x | 0 <= x < |sends|
      ensures sends[x] < t && events[sends[x]] == PeerSend(k)
      ensures var b := states[sends[x]].broadcasters;
        k < |b| && b[k].stage.ToPeers? && b[k].stage.msg == m && b[k].stage.peers == peers[x..]
    {
      PeerSendAt(events, t, k, x);
      SendOfCall(home, n, states, events, sends[x], t, k);
    }
    forall x, v | 0 <= x < |sends| && sends[x] < v < |states|
      ensures Reached(states[sends[x]], states[v], peers[x], m)
    {
      ReachedForGood(home, n, states, events, sends[x], v, k);
    }
  }
}
