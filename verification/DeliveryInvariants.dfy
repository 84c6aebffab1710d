/** What every step of the whole server keeps: a writer takes what the hub addressed to its connection, each message
    new to it and with a statistics record, and enters it into its books. */
module DeliveryInvariants {
  import opened Codec
  import opened Messages
  import opened Retransmission
  import opened Sums
  import opened LinkInvariants
  import M = RoomModel
  import S = HubSystem
  import T = HubTheorems
  import H = HubLifecycle
  import O = OnceOnly
  import Q = Reliability
  import opened Delivery

  // ---------------------------------------------------------------- only recorded messages are addressed to peers

  predicate BroadcasterOk(b: S.Broadcaster, recorded: set<nat>) {
    && (b.stage.ToPeers? ==> b.stage.msg.id in recorded)
    && (b.stage.Numbered? ==> b.stage.msg.id !in recorded)
  }

  /** A message has its statistics record, made once, before it is sent to any peer. */
  ghost predicate AddressedInv(s: S.Hub) {
    && (forall r: nat, i: nat :: T.IsConn(s, r, i) ==> Ids(PeerPart(T.ConnAt(s, r, i).hist)) <= s.recorded)
    && (forall k :: 0 <= k < |s.broadcasters| ==> BroadcasterOk(s.broadcasters[k], s.recorded))
  }

  function Ids(s: seq<PushMsg>): set<nat> {
    set m | m in s :: m.id
  }

  lemma IdsOfAppend(s: seq<PushMsg>, m: PushMsg)
    ensures Ids(s + [m]) == Ids(s) + {m.id}
  {
    assert m in s + [m];
    assert forall x :: x in s ==> x in s + [m];
  }

  lemma StepKeepsRecords(s: S.Hub, e: S.Event, t: S.Hub, k: nat)
    requires S.MutexInv(s) && S.StagesInv(s) && S.RecordedInv(s) && |s.issued| == s.counter && AddressedInv(s)
    requires S.StepShape(s, e, t) && k < |t.broadcasters|
    ensures BroadcasterOk(t.broadcasters[k], t.recorded)
  {
    if k < |s.broadcasters| {
      assert BroadcasterOk(s.broadcasters[k], s.recorded) && S.StageOk(s.broadcasters[k], s.issued);
      if e.Record? && s.broadcasters[k].stage.Inside() {
        S.AtMostOneInside(s, k, e.k);
      }
    }
  }

  lemma StepKeepsAddressed(home: PeerId -> nat, s: S.Hub, e: S.Event)
    requires S.Inv(home, s) && AddressedInv(s) && S.Enabled(home, s, e)
    ensures AddressedInv(S.Step(home, s, e))
  {
    var t := S.Step(home, s, e);
    S.StepMoves(home, s, e);
    forall r: nat, i: nat | T.IsConn(t, r, i)
      ensures O.HistStep(s, e, t, r, i)
    {
      O.StepOnHist(home, s, e, r, i);
    }
    hide S.Step, S.Enabled, S.RoomsInv;
    forall k | 0 <= k < |t.broadcasters|
      ensures BroadcasterOk(t.broadcasters[k], t.recorded)
    {
      StepKeepsRecords(s, e, t, k);
    }
    hide S.MutexInv, S.StagesInv, S.RecordedInv, S.IssuedInv;
    forall r: nat, i: nat | T.IsConn(t, r, i)
      ensures Ids(PeerPart(T.ConnAt(t, r, i).hist)) <= t.recorded
    {
      if T.IsConn(s, r, i) && e.PeerSend? && S.At(s, e.k) && s.broadcasters[e.k].stage.ToPeers? {
        assert BroadcasterOk(s.broadcasters[e.k], s.recorded);
        IdsOfAppend(PeerPart(T.ConnAt(s, r, i).hist), s.broadcasters[e.k].stage.msg);
      }
    }
  }

  // ---------------------------------------------------------------- what a writer has taken

  /** The part of a channel's history that the writer has taken out. */
  function Handed(c: M.Conn): seq<PushMsg>
    requires |c.send| <= |c.hist|
  {
    c.hist[..|c.hist| - |c.send|]
  }

  lemma AcceptHands(c: M.Conn, m: PushMsg)
    requires |c.send| <= |c.hist|
    ensures Handed(M.Accept(c, m)) == Handed(c)
  {
  }

  lemma TakenHands(c: M.Conn)
    requires M.ChannelInv(c) && c.send != []
    ensures Handed(M.Taken(c)) == Handed(c) + [c.send[0]]
  {
    assert c.hist[|c.hist| - |c.send|] == c.send[0];
  }

  /** What a room's step does to the channel of a connection: nothing, one message more, or one taken out. */
  lemma RoomStepOnChannel(room: M.Room, ev: M.Event, i: nat)
    requires M.MembersInv(room) && M.Enabled(room, ev) && i < |room.conns|
    ensures i < |M.Step(room, ev).conns|
    ensures var c, d := room.conns[i], M.Step(room, ev).conns[i];
      if ev == M.Take(i) then d == M.Taken(c)
      else (d.send == c.send && d.hist == c.hist) || (exists m :: d == M.Accept(c, m))
  {
    M.StepKeepsPeers(room, ev);
    if ev.Join? {
      assert M.Register(room, ev.i).conns[i].hist == room.conns[i].hist && M.Register(room, ev.i).conns[i].send == room.conns[i].send;
    } else if ev.Leave? {
      assert M.Unregister(room, ev.i).conns[i].hist == room.conns[i].hist && M.Unregister(room, ev.i).conns[i].send == room.conns[i].send;
    } else if ev.Deliver? {
      var d := M.DeliverTo(room, ev.peer).conns[i];
      assert d == room.conns[i] || d == M.Accept(room.conns[i], room.delivery.msg) || d == M.Evicted(room.conns[i], |room.log| - 1);
    }
  }

  lemma RoomStepHands(room: M.Room, ev: M.Event, issued: seq<PushMsg>, i: nat)
    requires M.RoomInv(room, issued) && M.Enabled(room, ev) && i < |room.conns| && M.ChannelInv(room.conns[i])
    ensures i < |M.Step(room, ev).conns|
    ensures var d := M.Step(room, ev).conns[i];
      |d.send| <= |d.hist| && Handed(d) == Handed(room.conns[i]) + if ev == M.Take(i) then [room.conns[i].send[0]] else []
  {
    RoomStepOnChannel(room, ev, i);
    var c, d := room.conns[i], M.Step(room, ev).conns[i];
    hide M.Step, M.RoomInv;
    if ev == M.Take(i) {
      TakenHands(c);
    } else if !(d.send == c.send && d.hist == c.hist) {
      var m :| d == M.Accept(c, m);
      AcceptHands(c, m);
    }
  }

  lemma ChannelsOk(home: PeerId -> nat, s: S.Hub, r: nat, i: nat)
    requires S.Inv(home, s) && T.IsConn(s, r, i)
    ensures M.RoomInv(s.rooms[r], s.issued)
    ensures M.ChannelInv(T.ConnAt(s, r, i)) && M.PeerOrderInv(T.ConnAt(s, r, i), s.issued)
  {
    assert M.RoomInv(s.rooms[r], s.issued) && M.ConnInv(s.rooms[r], s.issued, i);
  }

  /** Only the hub step that says so is a take in the room. */
  lemma OnlyTakesTake(home: PeerId -> nat, s: S.Hub, e: S.Event, r: nat, i: nat)
    requires S.Enabled(home, s, e)
    ensures e == S.Local(r, M.Take(i)) <==> H.RoomEvent(home, s, e) == Some((r, M.Take(i)))
  {
    hide M.Step, M.Enabled, M.Indexed;
  }

  lemma HubStepHands(home: PeerId -> nat, s: S.Hub, e: S.Event, r: nat, i: nat)
    requires S.Inv(home, s) && S.Enabled(home, s, e) && T.IsConn(s, r, i)
    ensures T.IsConn(S.Step(home, s, e), r, i)
    ensures var c, d := T.ConnAt(s, r, i), T.ConnAt(S.Step(home, s, e), r, i);
      && M.ChannelInv(c) && |d.send| <= |d.hist|
      && (e == S.Local(r, M.Take(i)) ==> c.send != [])
      && Handed(d) == Handed(c) + if e == S.Local(r, M.Take(i)) then [c.send[0]] else []
  {
    hide S.Step, S.Enabled, S.Inv, H.RoomEvent, M.Step, M.RoomInv, M.ChannelInv, M.PeerOrderInv, Handed;
    H.StepIsRoomStep(home, s, e);
    T.StepKeepsRoomCount(home, s, e);
    ChannelsOk(home, s, r, i);
    OnlyTakesTake(home, s, e, r, i);
    ChannelFits(T.ConnAt(s, r, i));
    var re := H.RoomEvent(home, s, e);
    if re.Some? && re.value.0 == r {
      RoomStepHands(s.rooms[r], re.value.1, s.issued, i);
    }
  }

  lemma ChannelFits(c: M.Conn)
    requires M.ChannelInv(c)
    ensures |c.send| <= |c.hist|
  {
  }

  /** The writer's books hold exactly the peer messages that it took out of its channel. */
  ghost predicate Matches(c: M.Conn, l: Q.Link) {
    |c.send| <= |c.hist| && l.books.taken == Ids(PeerPart(Handed(c)))
  }

  lemma {:induction false} PeerPartOfPrefix(h: seq<PushMsg>, k: nat)
    requires k <= |h|
    ensures PeerPart(h[..k]) <= PeerPart(h)
  {
    if k == |h| {
      assert h[..k] == h;
    } else {
      PeerPartOfPrefix(h[..|h| - 1], k);
      assert h[..|h| - 1][..k] == h[..k];
    }
  }

  /** The peer message at the head of a channel comes right after those taken out, in the order of its history. */
  lemma HeadIsNext(c: M.Conn)
    requires M.ChannelInv(c) && c.send != [] && !c.send[0].isBrAll
    ensures PeerPart(Handed(c)) + [c.send[0]] <= PeerPart(c.hist)
  {
    var k := |c.hist| - |c.send|;
    assert c.hist[..k + 1] == Handed(c) + [c.send[0]] by {
      TakenHands(c);
      assert M.Taken(c).hist == c.hist;
    }
    PartsOfAppend(Handed(c), c.send[0]);
    PeerPartOfPrefix(c.hist, k + 1);
  }

  lemma BeforeIsSmaller(a: seq<PushMsg>, m: PushMsg, all: seq<PushMsg>)
    requires a + [m] <= all && StrictlyOrdered(all)
    ensures m in all && m.id !in Ids(a)
  {
    assert all[|a|] == (a + [m])[|a|] == m;
    forall x | x in a
      ensures x.id < m.id
    {
      var j :| 0 <= j < |a| && a[j] == x;
      assert all[j] == (a + [m])[j] == x;
    }
  }

  /** When no call names a peer twice, the peer message that a writer is about to take is new to it. */
  lemma NextIsFresh(c: M.Conn, l: Q.Link)
    requires M.ChannelInv(c) && c.send != [] && !c.send[0].isBrAll && Matches(c, l)
    requires StrictlyOrdered(PeerPart(c.hist))
    ensures c.send[0].id !in l.books.taken
  {
    HeadIsNext(c);
    BeforeIsSmaller(PeerPart(Handed(c)), c.send[0], PeerPart(c.hist));
  }

  lemma HeadIsAddressed(c: M.Conn)
    requires M.ChannelInv(c) && c.send != [] && !c.send[0].isBrAll
    ensures c.send[0] in PeerPart(c.hist)
  {
    HeadIsNext(c);
    var a := PeerPart(Handed(c));
    assert PeerPart(c.hist)[|a|] == (a + [c.send[0]])[|a|] == c.send[0];
  }

  // ---------------------------------------------------------------- one connection in one step

  /** One connection is in order; `once` when no call names a peer twice. */
  ghost predicate PairInv(cfg: Config, c: M.Conn, l: Q.Link, once: bool)
    requires cfg.Valid()
  {
    LinkInv(cfg, l) && Matches(c, l) && (once ==> Conserved(cfg, l))
  }

  /** The step that a connection takes, if it takes one. */
  ghost function Own(s: Server, e: Event, r: nat, i: nat): Option<Q.LinkEvent>
    requires HasLink(s, r, i)
  {
    if e.LinkStep? && e.r == r && e.i == i then Some(e.ev)
    else if e == HubStep(S.Local(r, M.Take(i))) && T.ConnAt(s.hub, r, i).send != [] then Some(Taking(T.ConnAt(s.hub, r, i)))
    else None
  }

  ghost predicate Shaped(s: Server) {
    && |s.links| == |s.hub.rooms|
    && forall r :: 0 <= r < |s.links| ==> |s.links[r]| == |s.hub.rooms[r].conns|
  }

  /** The number of a room's connections, or links, after the event. */
  predicate Grown(s: S.Hub, e: S.Event, r: nat, before: nat, after: nat) {
    after == before + if e.Local? && e.ev.Open? && e.r == r then 1 else 0
  }

  lemma HubStepOnConns(home: PeerId -> nat, s: S.Hub, e: S.Event, r: nat)
    requires S.Inv(home, s) && S.Enabled(home, s, e) && r < |s.rooms|
    ensures r < |S.Step(home, s, e).rooms| && Grown(s, e, r, |s.rooms[r].conns|, |S.Step(home, s, e).rooms[r].conns|)
  {
    H.StepIsRoomStep(home, s, e);
    T.StepKeepsRoomCount(home, s, e);
    var re := H.RoomEvent(home, s, e);
    assert re.Some? && re.value.1.Open? ==> e.Local?;
    assert e.Local? ==> re == Some((e.r, e.ev));
    assert M.RoomInv(s.rooms[r], s.issued);
    hide S.Inv, S.Step, S.Enabled, H.RoomEvent, M.Step;
    if re.Some? && re.value.0 == r {
      M.StepKeepsPeers(s.rooms[r], re.value.1);
    }
  }

  lemma HubStepOnLinks(cfg: Config, s: Server, e: S.Event, r: nat)
    requires cfg.Valid() && r < |s.links|
    requires IsTake(e) ==> HasLink(s, e.r, e.ev.i) && T.ConnAt(s.hub, e.r, e.ev.i).send != []
                           && Q.Enabled(s.links[e.r][e.ev.i], Taking(T.ConnAt(s.hub, e.r, e.ev.i)))
    ensures |LinksAfter(cfg, s, e)| == |s.links| && Grown(s.hub, e, r, |s.links[r]|, |LinksAfter(cfg, s, e)[r]|)
  {
    hide Q.Step, Q.Enabled;
  }

  lemma StepKeepsShape(home: PeerId -> nat, cfg: Config, s: Server, e: Event)
    requires cfg.Valid() && S.Inv(home, s.hub) && Shaped(s) && Enabled(home, s, e)
    ensures Shaped(Step(home, cfg, s, e))
  {
    var t := Step(home, cfg, s, e);
    hide S.Step, S.Enabled, S.Inv, M.Step, Q.Step, Q.Enabled, LinksAfter, Taking;
    if e.HubStep? {
      T.StepKeepsRoomCount(home, s.hub, e.e);
      EnabledTake(home, cfg, s, e.e);
      hide Enabled;
      forall r | 0 <= r < |s.links|
        ensures |t.links| == |s.links| && |t.links[r]| == |t.hub.rooms[r].conns|
      {
        HubStepOnConns(home, s.hub, e.e, r);
        HubStepOnLinks(cfg, s, e.e, r);
      }
    }
  }

  lemma EnabledTake(home: PeerId -> nat, cfg: Config, s: Server, e: S.Event)
    requires cfg.Valid() && Enabled(home, s, HubStep(e))
    ensures IsTake(e) ==>
              && HasLink(s, e.r, e.ev.i) && T.ConnAt(s.hub, e.r, e.ev.i).send != []
              && Q.Enabled(s.links[e.r][e.ev.i], Taking(T.ConnAt(s.hub, e.r, e.ev.i)))
    ensures |LinksAfter(cfg, s, e)| == |s.links|
  {
    hide Q.Enabled, Q.Step;
  }

  /** A connection's link moves by its own steps only. */
  lemma StepOnLink(home: PeerId -> nat, cfg: Config, s: Server, e: Event, r: nat, i: nat)
    requires cfg.Valid() && Enabled(home, s, e) && HasLink(s, r, i)
    ensures var t := Step(home, cfg, s, e);
      && r < |t.links| && i < |t.links[r]|
      && match Own(s, e, r, i)
         case None => t.links[r][i] == s.links[r][i]
         case Some(ev) => Q.Enabled(s.links[r][i], ev) && t.links[r][i] == Q.Step(cfg, s.links[r][i], ev)
  {
    assert e.HubStep? && IsTake(e.e) ==> e.e == S.Local(e.e.r, M.Take(e.e.ev.i)) && T.ConnAt(s.hub, e.e.r, e.e.ev.i).send != [];
    hide S.Step, S.Enabled, Q.Step, Q.Enabled;
  }

  /** A step of a link moves the set of messages it took as its event says. */
  lemma OwnTaken(cfg: Config, l: Q.Link, ev: Q.LinkEvent)
    requires cfg.Valid() && Q.Enabled(l, ev)
    ensures Q.Step(cfg, l, ev).books.taken == l.books.taken + if ev.Take? then {ev.id} else {}
  {
    StepOnBooks(cfg, l, ev);
    hide Q.Step;
  }

  lemma NewPair(cfg: Config, c: M.Conn)
    requires cfg.Valid() && c.send == c.hist == []
    ensures PairInv(cfg, c, Q.NewLink, true)
  {
    assert Handed(c) == [];
  }

  /** What makes a step of the server fit one of its connections. */
  ghost predicate Fits(s: Server, e: Event, r: nat, i: nat, once: bool)
    requires HasLink(s, r, i)
  {
    var own := Own(s, e, r, i);
    own.Some? && own.value.Take? ==>
      own.value.id < TWO_32 && (once ==> own.value.id !in s.links[r][i].books.taken)
  }

  lemma LinkStepKeepsPair(cfg: Config, c: M.Conn, l: Q.Link, once: bool, ev: Q.LinkEvent)
    requires cfg.Valid() && PairInv(cfg, c, l, once) && Q.Enabled(l, ev)
    requires ev.Take? ==> ev.id < TWO_32 && (once ==> ev.id !in l.books.taken)
    ensures LinkInv(cfg, Q.Step(cfg, l, ev)) && (once ==> Conserved(cfg, Q.Step(cfg, l, ev)))
  {
    StepKeepsLink(cfg, l, ev);
    if once {
      StepKeepsConserved(cfg, l, ev);
    }
  }

  /** What the writer takes out, it enters into its books. */
  lemma MatchesMoves(c: M.Conn, d: M.Conn, l: Q.Link, l': Q.Link, took: seq<PushMsg>)
    requires Matches(c, l) && |d.send| <= |d.hist| && |took| <= 1 && Handed(d) == Handed(c) + took
    requires l'.books.taken == l.books.taken + if took != [] && !took[0].isBrAll then {took[0].id} else {}
    ensures Matches(d, l')
  {
    if took == [] {
      assert Handed(c) + [] == Handed(c);
    } else {
      assert took == [took[0]];
      PartsOfAppend(Handed(c), took[0]);
      IdsOfAppend(PeerPart(Handed(c)), took[0]);
    }
  }

  lemma OldMatchKept(home: PeerId -> nat, cfg: Config, s: Server, e: Event, r: nat, i: nat)
    requires cfg.Valid() && S.Inv(home, s.hub) && Enabled(home, s, e) && HasLink(s, r, i)
    requires Matches(T.ConnAt(s.hub, r, i), s.links[r][i])
    ensures HasLink(Step(home, cfg, s, e), r, i)
    ensures Matches(T.ConnAt(Step(home, cfg, s, e).hub, r, i), Step(home, cfg, s, e).links[r][i])
  {
    var t, c, l := Step(home, cfg, s, e), T.ConnAt(s.hub, r, i), s.links[r][i];
    StepOnLink(home, cfg, s, e, r, i);
    var own := Own(s, e, r, i);
    assert (own.Some? && own.value.Take?) ==> e == HubStep(S.Local(r, M.Take(i))) && c.send != [] && own.value == Taking(c);
    assert e == HubStep(S.Local(r, M.Take(i))) && c.send != [] ==> own == Some(Taking(c));
    if own.Some? {
      OwnTaken(cfg, l, own.value);
    }
    if e.HubStep? {
      HubStepHands(home, s.hub, e.e, r, i);
      hide Enabled, Own, S.Step, Q.Step, Q.Enabled, S.Inv, Matches, Handed, M.ChannelInv;
      MatchesMoves(c, T.ConnAt(t.hub, r, i), l, t.links[r][i], if e.e == S.Local(r, M.Take(i)) then [c.send[0]] else []);
    } else {
      hide Own, Q.Step, Q.Enabled, S.Inv, Taking, Handed;
    }
  }

  lemma OldPairKept(home: PeerId -> nat, cfg: Config, s: Server, e: Event, r: nat, i: nat, once: bool)
    requires cfg.Valid() && S.Inv(home, s.hub) && Enabled(home, s, e) && HasLink(s, r, i)
    requires PairInv(cfg, T.ConnAt(s.hub, r, i), s.links[r][i], once) && Fits(s, e, r, i, once)
    ensures HasLink(Step(home, cfg, s, e), r, i)
    ensures PairInv(cfg, T.ConnAt(Step(home, cfg, s, e).hub, r, i), Step(home, cfg, s, e).links[r][i], once)
  {
    OldMatchKept(home, cfg, s, e, r, i);
    StepOnLink(home, cfg, s, e, r, i);
    var own := Own(s, e, r, i);
    hide Enabled, Step, Own, Q.Step, Q.Enabled, LinkInv, Conserved, S.Inv, Matches;
    if own.Some? {
      LinkStepKeepsPair(cfg, T.ConnAt(s.hub, r, i), s.links[r][i], once, own.value);
    }
  }

  // ---------------------------------------------------------------- all connections in every run

  ghost predicate PairsInv(cfg: Config, s: Server, once: bool)
    requires cfg.Valid()
  {
    forall r: nat, i: nat :: HasLink(s, r, i) ==> PairInv(cfg, T.ConnAt(s.hub, r, i), s.links[r][i], once)
  }

  /** What a writer takes has an id in range, and is new to it when nothing was put into its channel twice. */
  lemma TakingFits(c: M.Conn, l: Q.Link, issued: seq<PushMsg>, once: bool)
    requires M.ChannelInv(c) && M.PeerOrderInv(c, issued) && Matches(c, l) && |issued| < TWO_32
    requires once ==> StrictlyOrdered(PeerPart(c.hist))
    requires c.send != [] && Taking(c).Take?
    ensures Taking(c).id < TWO_32 && (once ==> Taking(c).id !in l.books.taken)
  {
    HeadIsAddressed(c);
    var x :| 0 <= x < |PeerPart(c.hist)| && PeerPart(c.hist)[x] == c.send[0];
    if once {
      NextIsFresh(c, l);
    }
  }

  lemma OwnTakeIsTaking(home: PeerId -> nat, s: Server, e: Event, r: nat, i: nat)
    requires HasLink(s, r, i) && Enabled(home, s, e)
    ensures var own, c := Own(s, e, r, i), T.ConnAt(s.hub, r, i);
      own.Some? && own.value.Take? ==> c.send != [] && own.value == Taking(c)
  {
    hide S.Enabled, Q.Enabled, Taking;
  }

  lemma AddressedInOrder(s: S.Hub, r: nat, i: nat)
    requires O.OnceInv(s) && T.IsConn(s, r, i)
    ensures StrictlyOrdered(PeerPart(T.ConnAt(s, r, i).hist))
  {
  }

  lemma IssuedSoFar(home: PeerId -> nat, s: S.Hub)
    requires S.Inv(home, s)
    ensures |s.issued| == s.counter
  {
  }

  /** The hub sees to it that these conditions are met. */
  lemma TakesFit(home: PeerId -> nat, cfg: Config, s: Server, e: Event, r: nat, i: nat, once: bool)
    requires cfg.Valid() && S.Inv(home, s.hub) && HasLink(s, r, i) && s.hub.counter < TWO_32
    requires PairInv(cfg, T.ConnAt(s.hub, r, i), s.links[r][i], once) && (once ==> O.OnceInv(s.hub))
    requires Enabled(home, s, e)
    ensures Fits(s, e, r, i, once)
  {
    hide Enabled, S.Inv, O.OnceInv, LinkInv, Conserved, Taking, Own, Matches, M.ChannelInv, M.PeerOrderInv, PeerPart;
    ChannelsOk(home, s.hub, r, i);
    OwnTakeIsTaking(home, s, e, r, i);
    IssuedSoFar(home, s.hub);
    if once {
      AddressedInOrder(s.hub, r, i);
    }
    var own := Own(s, e, r, i);
    if own.Some? && own.value.Take? {
      TakingFits(T.ConnAt(s.hub, r, i), s.links[r][i], s.hub.issued, once);
    }
  }

  /** A connection that was not there has just been opened, and its writer and reader are new. */
  lemma OpenedIsNew(home: PeerId -> nat, cfg: Config, s: Server, e: Event, r: nat, i: nat)
    requires cfg.Valid() && Shaped(s) && Enabled(home, s, e)
    requires HasLink(Step(home, cfg, s, e), r, i) && !HasLink(s, r, i)
    ensures var t := Step(home, cfg, s, e);
      t.links[r][i] == Q.NewLink && T.ConnAt(t.hub, r, i).send == T.ConnAt(t.hub, r, i).hist == []
  {
    var t := Step(home, cfg, s, e);
    hide Q.Step, Q.Enabled;
    assert e.HubStep? && e.e.Local? && e.e.ev.Open? && e.e.r == r && i == |s.links[r]|;
    assert T.ConnAt(t.hub, r, i) == M.NewConn(e.e.ev.peer);
  }

  lemma OpenedPair(home: PeerId -> nat, cfg: Config, s: Server, e: Event, r: nat, i: nat)
    requires cfg.Valid() && Shaped(s) && Enabled(home, s, e)
    requires HasLink(Step(home, cfg, s, e), r, i) && !HasLink(s, r, i)
    ensures PairInv(cfg, T.ConnAt(Step(home, cfg, s, e).hub, r, i), Step(home, cfg, s, e).links[r][i], true)
  {
    OpenedIsNew(home, cfg, s, e, r, i);
    var t := Step(home, cfg, s, e);
    hide PairInv, Enabled, Step, Shaped;
    NewPair(cfg, T.ConnAt(t.hub, r, i));
  }

  lemma StepKeepsPairs(home: PeerId -> nat, cfg: Config, s: Server, e: Event, once: bool)
    requires cfg.Valid() && S.Inv(home, s.hub) && Shaped(s) && Enabled(home, s, e) && s.hub.counter < TWO_32
    requires PairsInv(cfg, s, once) && (once ==> O.OnceInv(s.hub))
    ensures PairsInv(cfg, Step(home, cfg, s, e), once)
  {
    var t := Step(home, cfg, s, e);
    hide Enabled, Step, S.Inv, PairInv, O.OnceInv, Fits, S.Step;
    forall r: nat, i: nat | HasLink(t, r, i)
      ensures PairInv(cfg, T.ConnAt(t.hub, r, i), t.links[r][i], once)
    {
      if HasLink(s, r, i) {
        TakesFit(home, cfg, s, e, r, i, once);
        OldPairKept(home, cfg, s, e, r, i, once);
      } else {
        OpenedPair(home, cfg, s, e, r, i);
        assert PairInv(cfg, T.ConnAt(t.hub, r, i), t.links[r][i], true) ==> PairInv(cfg, T.ConnAt(t.hub, r, i), t.links[r][i], once);
      }
    }
  }
}
