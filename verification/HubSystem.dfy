/** The whole hub: any number of rooms, and any number of broadcasters that share one mutex and one message
    counter. A run is any interleaving of the atomic steps of all goroutines. */
module HubSystem {
  import opened Messages
  import opened Sums
  import M = RoomModel
  import L = RoomLife

  /** What a broadcaster was asked for: the push to everybody, a list of rooms, or a list of peers. */
  datatype Targets = AllRooms | SomeRooms(ids: seq<nat>) | SomePeers(peers: seq<PeerId>)

  /** Where a broadcaster is. Everything from Entered to Sized happens between taking the token out of the
      mutex channel and putting it back. */
  datatype Stage =
    | Waiting
    | Entered
    | Numbered(msg: PushMsg)
    | ToRooms(msg: PushMsg, rooms: seq<nat>)
    | ToPeers(msg: PushMsg, peers: seq<PeerId>)
    | Sized(msg: PushMsg)
    | Finished
  {
    predicate Inside() { !Waiting? && !Finished? }

    predicate HasMessage() { Inside() && !Entered? }
  }

  datatype Broadcaster = Broadcaster(targets: Targets, body: seq<Codec.byte>, stage: Stage)

  /** The last field is history: every message ever numbered. */
  datatype Hub = Hub(
    rooms: seq<M.Room>,
    broadcasters: seq<Broadcaster>,
    mutex: nat,          // tokens in the mutex channel
    counter: nat,        // total_msg_cnt
    recorded: set<nat>,  // the keys of msg_stats
    totalSize: int,
    totalPeers: int,
    issued: seq<PushMsg>)

  import Codec

  datatype Event =
    | Spawn(targets: Targets, body: seq<Codec.byte>)
    | Acquire(k: nat)
    | Number(k: nat)
    | Record(k: nat, order: seq<nat>)  // the order in which a loop over all rooms will meet them
    | RoomSend(k: nat)
    | PeerSend(k: nat)
    | AddSize(k: nat)
    | Release(k: nat)
    | Local(r: nat, ev: M.Event)

  function Start(rooms: nat): Hub {
    Hub(seq(rooms, _ => M.EmptyRoom), [], 1, 0, {}, 0, 0, [])
  }

  ghost predicate IsPermutation(order: seq<nat>, n: nat) {
    && (forall i :: 0 <= i < |order| ==> order[i] < n)
    && (forall r :: 0 <= r < n ==> r in order)
    && (forall i, j :: 0 <= i < j < |order| ==> order[i] != order[j])
  }

  /** A step that a room takes on its own, with connections opened in the room their peer hashes to. */
  predicate IsLocal(home: PeerId -> nat, r: nat, ev: M.Event) {
    !ev.Enqueue? && !ev.PeerSend? && (ev.Open? ==> home(ev.peer) == r)
  }

  predicate At(s: Hub, k: nat) {
    k < |s.broadcasters|
  }

  ghost predicate Enabled(home: PeerId -> nat, s: Hub, e: Event) {
    && (forall r :: 0 <= r < |s.rooms| ==> M.Indexed(s.rooms[r]) && !s.rooms[r].panicked)
    && match e
       case Spawn(_, _) => true
       case Acquire(k) => At(s, k) && s.broadcasters[k].stage.Waiting? && s.mutex == 1
       case Number(k) => At(s, k) && s.broadcasters[k].stage.Entered?
       case Record(k, order) =>
         && At(s, k) && s.broadcasters[k].stage.Numbered?
         && (s.broadcasters[k].targets.AllRooms? ==> IsPermutation(order, |s.rooms|))
         && (s.broadcasters[k].targets.SomeRooms? ==> order == s.broadcasters[k].targets.ids)
       case RoomSend(k) =>
         && At(s, k) && s.broadcasters[k].stage.ToRooms? && s.broadcasters[k].stage.rooms != []
         && var r := s.broadcasters[k].stage.rooms[0];
            r < |s.rooms| ==> M.Enabled(s.rooms[r], M.Enqueue(s.broadcasters[k].stage.msg))
       case PeerSend(k) =>
         && At(s, k) && s.broadcasters[k].stage.ToPeers? && s.broadcasters[k].stage.peers != []
         && var p := s.broadcasters[k].stage.peers[0];
            home(p) < |s.rooms| && M.Enabled(s.rooms[home(p)], M.PeerSend(p, s.broadcasters[k].stage.msg))
       case AddSize(k) =>
         && At(s, k)
         && (s.broadcasters[k].stage.ToRooms? ==> s.broadcasters[k].stage.rooms == [])
         && (s.broadcasters[k].stage.ToPeers? ==> s.broadcasters[k].stage.peers == [])
         && (s.broadcasters[k].stage.ToRooms? || s.broadcasters[k].stage.ToPeers?)
       case Release(k) => At(s, k) && s.broadcasters[k].stage.Sized?
       case Local(r, ev) => r < |s.rooms| && IsLocal(home, r, ev) && M.Enabled(s.rooms[r], ev)
  }

  function Advance(s: Hub, k: nat, stage: Stage): Hub
    requires At(s, k)
  {
    s.(broadcasters := s.broadcasters[k := s.broadcasters[k].(stage := stage)])
  }

  function WithRoom(s: Hub, r: nat, room: M.Room): Hub
    requires r < |s.rooms|
  {
    s.(rooms := s.rooms[r := room])
  }

  ghost function Step(home: PeerId -> nat, s: Hub, e: Event): Hub
    requires Enabled(home, s, e)
  {
    match e
    case Spawn(targets, body) =>
      s.(broadcasters := s.broadcasters + [Broadcaster(targets, body, Waiting)])
    case Acquire(k) => Advance(s, k, Entered).(mutex := 0)
    case Number(k) =>
      var b := s.broadcasters[k];
      var msg := PushMsg(s.counter + 1, b.body, !b.targets.SomePeers?);
      Advance(s, k, Numbered(msg)).(counter := s.counter + 1, issued := s.issued + [msg])
    case Record(k, order) =>
      var b := s.broadcasters[k];
      Advance(s, k, if b.targets.SomePeers? then ToPeers(b.stage.msg, b.targets.peers) else ToRooms(b.stage.msg, order))
        .(recorded := s.recorded + {b.stage.msg.id})
    case RoomSend(k) =>
      var st := s.broadcasters[k].stage;
      var s1 := Advance(s, k, st.(rooms := st.rooms[1..]));
      if st.rooms[0] < |s.rooms| then
        WithRoom(s1, st.rooms[0], M.Step(s.rooms[st.rooms[0]], M.Enqueue(st.msg)))
      else s1
    case PeerSend(k) =>
      var st := s.broadcasters[k].stage;
      var p := st.peers[0];
      WithRoom(Advance(s, k, st.(peers := st.peers[1..])), home(p), M.Step(s.rooms[home(p)], M.PeerSend(p, st.msg)))
    case AddSize(k) =>
      Advance(s, k, Sized(s.broadcasters[k].stage.msg)).(totalSize := s.totalSize + |s.broadcasters[k].body|)
    case Release(k) => Advance(s, k, Finished).(mutex := s.mutex + 1)
    case Local(r, ev) =>
      WithRoom(s, r, M.Step(s.rooms[r], ev)).(totalPeers := s.totalPeers + L.CountedDelta(ev))
  }

  // ---------------------------------------------------------------- the invariant

  function InsideCount(b: Broadcaster): int { if b.stage.Inside() then 1 else 0 }

  function BodySize(m: PushMsg): int { |m.body| }

  /** Bytes of a message that is numbered but not added to the total yet. */
  function Unsized(b: Broadcaster): int {
    if b.stage.HasMessage() && !b.stage.Sized? then |b.body| else 0
  }

  ghost predicate RoomsInv(home: PeerId -> nat, s: Hub) {
    forall r :: 0 <= r < |s.rooms| ==>
      && M.RoomInv(s.rooms[r], s.issued)
      && forall i :: 0 <= i < |s.rooms[r].conns| ==> home(s.rooms[r].conns[i].peer) == r
  }

  /** The token is in the channel or with exactly one broadcaster. */
  ghost predicate MutexInv(s: Hub) {
    s.mutex + Total(s.broadcasters, InsideCount) == 1
  }

  predicate StageOk(b: Broadcaster, issued: seq<PushMsg>) {
    && (b.stage.HasMessage() ==>
          IsNewest(b.stage.msg, issued) && b.stage.msg.body == b.body && b.stage.msg.isBrAll == !b.targets.SomePeers?)
    && (b.stage.ToRooms? ==> !b.targets.SomePeers?)
    && (b.stage.ToPeers? ==> b.targets.SomePeers?)
  }

  ghost predicate StagesInv(s: Hub) {
    forall k :: 0 <= k < |s.broadcasters| ==> StageOk(s.broadcasters[k], s.issued)
  }

  /** The ids handed out are 1, 2, .. in this order. */
  ghost predicate IssuedInv(s: Hub) {
    && |s.issued| == s.counter
    && (forall n :: 0 <= n < |s.issued| ==> s.issued[n].id == n + 1)
    && s.totalSize + Total(s.broadcasters, Unsized) == Total(s.issued, BodySize)
  }

  ghost predicate SomeNumbered(s: Hub) {
    exists k :: 0 <= k < |s.broadcasters| && s.broadcasters[k].stage.Numbered?
  }

  ghost predicate RecordedInv(s: Hub) {
    && (forall n :: n in s.recorded ==> 1 <= n <= s.counter)
    && (forall n :: 1 <= n <= s.counter && n !in s.recorded ==>
          n == s.counter && SomeNumbered(s))
  }

  ghost predicate Inv(home: PeerId -> nat, s: Hub) {
    RoomsInv(home, s) && MutexInv(s) && StagesInv(s) && IssuedInv(s) && RecordedInv(s)
  }

  /** At most one broadcaster is between taking the token and giving it back. */
  lemma AtMostOneInside(s: Hub, i: nat, j: nat)
    requires MutexInv(s) && i < |s.broadcasters| && j < |s.broadcasters|
    requires s.broadcasters[i].stage.Inside()
    ensures s.mutex == 0
    ensures s.broadcasters[j].stage.Inside() ==> i == j
  {
    TotalAtLeast(s.broadcasters, i, i, InsideCount);
    if s.broadcasters[j].stage.Inside() && i != j {
      TotalAtLeast(s.broadcasters, if i < j then i else j, if i < j then j else i, InsideCount);
    }
  }

  lemma NoneInside(s: Hub, j: nat)
    requires MutexInv(s) && s.mutex == 1 && j < |s.broadcasters|
    ensures !s.broadcasters[j].stage.Inside()
  {
    TotalAtLeast(s.broadcasters, j, j, InsideCount);
  }

  lemma StartInv(home: PeerId -> nat, n: nat)
    ensures Inv(home, Start(n))
  {
  }

  lemma MoreIssued(room: M.Room, issued: seq<PushMsg>, m: PushMsg)
    requires M.RoomInv(room, issued)
    ensures M.RoomInv(room, issued + [m])
  {
    forall i | 0 <= i < |room.conns|
      ensures M.ConnInv(room, issued + [m], i)
    {
      assert M.ConnInv(room, issued, i);
    }
  }

  lemma RoomStepKeepsHome(home: PeerId -> nat, room: M.Room, ev: M.Event, r: nat, issued: seq<PushMsg>)
    requires M.RoomInv(room, issued) && M.Enabled(room, ev) && (ev.Open? ==> home(ev.peer) == r)
    requires forall i :: 0 <= i < |room.conns| ==> home(room.conns[i].peer) == r
    ensures forall i :: 0 <= i < |M.Step(room, ev).conns| ==> home(M.Step(room, ev).conns[i].peer) == r
  {
    M.StepKeepsPeers(room, ev);
  }

  lemma StepKeepsRooms(home: PeerId -> nat, s: Hub, e: Event)
    requires Inv(home, s) && Enabled(home, s, e)
    ensures RoomsInv(home, Step(home, s, e))
  {
    hide MutexInv, RecordedInv, M.RoomInv, M.Step, L.CountedDelta;
    match e
    case Number(k) =>
      forall r | 0 <= r < |s.rooms|
        ensures M.RoomInv(s.rooms[r], Step(home, s, e).issued)
      {
        MoreIssued(s.rooms[r], s.issued, Step(home, s, e).issued[s.counter]);
      }
    case RoomSend(k) =>
      var st := s.broadcasters[k].stage;
      assert StageOk(s.broadcasters[k], s.issued);
      if st.rooms[0] < |s.rooms| {
        var room := s.rooms[st.rooms[0]];
        M.StepKeepsRoom(room, M.Enqueue(st.msg), s.issued);
        RoomStepKeepsHome(home, room, M.Enqueue(st.msg), st.rooms[0], s.issued);
      }
    case PeerSend(k) =>
      var st := s.broadcasters[k].stage;
      assert StageOk(s.broadcasters[k], s.issued);
      var p := st.peers[0];
      M.StepKeepsRoom(s.rooms[home(p)], M.PeerSend(p, st.msg), s.issued);
      RoomStepKeepsHome(home, s.rooms[home(p)], M.PeerSend(p, st.msg), home(p), s.issued);
    case Local(r, ev) =>
      M.StepKeepsRoom(s.rooms[r], ev, s.issued);
      RoomStepKeepsHome(home, s.rooms[r], ev, r, s.issued);
    case _ =>
  }

  /** How a broadcaster moves in one step. */
  ghost predicate Moves(s: Hub, e: Event, b: Broadcaster, c: Broadcaster) {
    && c.body == b.body && c.targets == b.targets
    && (if e.Acquire? then s.mutex == 1 && b.stage.Waiting? else b.stage.Inside())
    && (b.stage.HasMessage() && c.stage.HasMessage() ==> c.stage.msg == b.stage.msg)
    && (c.stage.HasMessage() ==> e.Number? || b.stage.HasMessage())
    && (c.stage.ToPeers? && !b.stage.ToPeers? ==> b.stage.Numbered? && b.targets.SomePeers?)
    && (c.stage.ToRooms? && !b.stage.ToRooms? ==> b.stage.Numbered? && !b.targets.SomePeers?)
    && (e.Number? ==> c.stage == Numbered(PushMsg(s.counter + 1, b.body, !b.targets.SomePeers?)))
    && (e.Number? <==> c.stage.Numbered?) && (e.Record? <==> b.stage.Numbered?)
  }

  /** A step adds a broadcaster, or moves one of them by one stage, or leaves them alone. */
  ghost predicate StepShape(s: Hub, e: Event, t: Hub) {
    if e.Spawn? then
      && t.broadcasters == s.broadcasters + [Broadcaster(e.targets, e.body, Waiting)]
      && t == s.(broadcasters := t.broadcasters)
    else if e.Local? then
      && t == s.(rooms := t.rooms, totalPeers := t.totalPeers)
    else
      && At(s, e.k) && |t.broadcasters| == |s.broadcasters|
      && t.broadcasters == s.broadcasters[e.k := t.broadcasters[e.k]]
      && Moves(s, e, s.broadcasters[e.k], t.broadcasters[e.k])
      && t.mutex + InsideCount(t.broadcasters[e.k]) == s.mutex + InsideCount(s.broadcasters[e.k])
      && t.counter == s.counter + (if e.Number? then 1 else 0)
      && t.issued == (if e.Number? then s.issued + [t.broadcasters[e.k].stage.msg] else s.issued)
      && t.totalSize + Unsized(t.broadcasters[e.k])
         == s.totalSize + Unsized(s.broadcasters[e.k]) + (if e.Number? then |s.broadcasters[e.k].body| else 0)
      && t.recorded == (if e.Record? then s.recorded + {s.broadcasters[e.k].stage.msg.id} else s.recorded)
  }

  lemma StepMoves(home: PeerId -> nat, s: Hub, e: Event)
    requires Enabled(home, s, e)
    ensures StepShape(s, e, Step(home, s, e))
  {
    hide M.Step, M.Enabled, M.Indexed, L.CountedDelta;
  }

  lemma StepKeepsMutex(s: Hub, e: Event, t: Hub)
    requires MutexInv(s) && StepShape(s, e, t)
    ensures MutexInv(t)
  {
    if e.Spawn? {
      TotalAppend(s.broadcasters, Broadcaster(e.targets, e.body, Waiting), InsideCount);
    } else if !e.Local? {
      TotalUpdate(s.broadcasters, e.k, t.broadcasters[e.k], InsideCount);
    }
  }

  lemma StepKeepsStages(s: Hub, e: Event, t: Hub)
    requires MutexInv(s) && StagesInv(s) && |s.issued| == s.counter && StepShape(s, e, t)
    ensures StagesInv(t)
  {
    forall j | 0 <= j < |t.broadcasters|
      ensures StageOk(t.broadcasters[j], t.issued)
    {
      if j < |s.broadcasters| {
        assert StageOk(s.broadcasters[j], s.issued);
        if e.Number? {
          AtMostOneInside(s, e.k, j);
        }
      }
    }
  }

  lemma StepKeepsIssued(s: Hub, e: Event, t: Hub)
    requires IssuedInv(s) && StepShape(s, e, t)
    ensures IssuedInv(t)
  {
    if e.Spawn? {
      TotalAppend(s.broadcasters, Broadcaster(e.targets, e.body, Waiting), Unsized);
    } else if !e.Local? {
      TotalUpdate(s.broadcasters, e.k, t.broadcasters[e.k], Unsized);
      if e.Number? {
        TotalAppend(s.issued, t.broadcasters[e.k].stage.msg, BodySize);
      }
    }
  }

  lemma StepKeepsRecorded(s: Hub, e: Event, t: Hub)
    requires MutexInv(s) && StagesInv(s) && |s.issued| == s.counter && RecordedInv(s) && StepShape(s, e, t)
    ensures RecordedInv(t)
  {
    if e.Record? {
      assert StageOk(s.broadcasters[e.k], s.issued);
    }
    forall n | 1 <= n <= t.counter && n !in t.recorded
      ensures n == t.counter && SomeNumbered(t)
    {
      if e.Number? {
        assert t.broadcasters[e.k].stage.Numbered?;
        if n <= s.counter {
          var k :| 0 <= k < |s.broadcasters| && s.broadcasters[k].stage.Numbered?;
          AtMostOneInside(s, k, e.k);
        }
      } else {
        var k :| 0 <= k < |s.broadcasters| && s.broadcasters[k].stage.Numbered?;
        assert StageOk(s.broadcasters[k], s.issued);
        if !e.Spawn? && !e.Local? && e.k != k {
          assert s.broadcasters[e.k].stage.Inside() ==> false by {
            if s.broadcasters[e.k].stage.Inside() {
              AtMostOneInside(s, k, e.k);
            }
          }
        }
        assert t.broadcasters[k].stage.Numbered?;
      }
    }
  }

  lemma StepKeepsInv(home: PeerId -> nat, s: Hub, e: Event)
    requires Inv(home, s) && Enabled(home, s, e)
    ensures Inv(home, Step(home, s, e))
  {
    var t := Step(home, s, e);
    StepMoves(home, s, e);
    StepKeepsRooms(home, s, e);
    StepKeepsMutex(s, e, t);
    StepKeepsStages(s, e, t);
    StepKeepsIssued(s, e, t);
    StepKeepsRecorded(s, e, t);
  }
}
