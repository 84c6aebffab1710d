/** The whole server with its clients: the hub, and for every connection the reliable-delivery protocol between its
    writer, its reader and its client. A writer takes from the channel that the hub fills; the statistics get a record
    when the hub makes one. */
module Delivery {
  import opened Codec
  import opened Messages
  import opened Retransmission
  import M = RoomModel
  import S = HubSystem
  import T = HubTheorems
  import H = HubLifecycle
  import O = OnceOnly
  import Q = Reliability

  /** `links[r][i]` belongs to connection i of room r. */
  datatype Server = Server(hub: S.Hub, links: seq<seq<Q.Link>>, stats: map<nat, Q.Stat>)

  /** A step of the hub, or a step of one connection that the hub does not see. */
  datatype Event = HubStep(e: S.Event) | LinkStep(r: nat, i: nat, ev: Q.LinkEvent)

  function Start(rooms: nat): Server {
    Server(S.Start(rooms), seq(rooms, _ => []), map[])
  }

  predicate HasLink(s: Server, r: nat, i: nat) {
    r < |s.links| && i < |s.links[r]| && T.IsConn(s.hub, r, i)
  }

  predicate IsTake(e: S.Event) { e.Local? && e.ev.Take? }

  /** What the writer does with the message that it receives from its channel. */
  function Taking(c: M.Conn): Q.LinkEvent
    requires c.send != []
  {
    if c.send[0].isBrAll then Q.TakeAll(c.send[0].id) else Q.Take(c.send[0].id, c.send[0].body)
  }

  ghost predicate Enabled(home: PeerId -> nat, s: Server, e: Event) {
    match e
    case HubStep(h) =>
      && S.Enabled(home, s.hub, h)
      && (IsTake(h) ==> HasLink(s, h.r, h.ev.i)
                        && Q.Enabled(s.links[h.r][h.ev.i], Taking(T.ConnAt(s.hub, h.r, h.ev.i))))
    case LinkStep(r, i, ev) =>
      && !H.Ended(s.hub) && HasLink(s, r, i) && !ev.Take? && !ev.TakeAll? && Q.Enabled(s.links[r][i], ev)
  }

  function WithLink(links: seq<seq<Q.Link>>, r: nat, i: nat, l: Q.Link): seq<seq<Q.Link>>
    requires r < |links| && i < |links[r]|
  {
    links[r := links[r][i := l]]
  }

  /** What a step of the hub does to the connections: an opened one gets its writer and reader, a taken message is
      sent. */
  function LinksAfter(cfg: Config, s: Server, h: S.Event): seq<seq<Q.Link>>
    requires cfg.Valid()
    requires IsTake(h) ==> HasLink(s, h.r, h.ev.i) && T.ConnAt(s.hub, h.r, h.ev.i).send != []
                           && Q.Enabled(s.links[h.r][h.ev.i], Taking(T.ConnAt(s.hub, h.r, h.ev.i)))
  {
    if IsTake(h) then
      WithLink(s.links, h.r, h.ev.i, Q.Step(cfg, s.links[h.r][h.ev.i], Taking(T.ConnAt(s.hub, h.r, h.ev.i))))
    else if h.Local? && h.ev.Open? && h.r < |s.links| then
      s.links[h.r := s.links[h.r] + [Q.NewLink]]
    else s.links
  }

  /** A recorded message starts with both counters at zero. */
  function StatsAfter(s: Server, h: S.Event): map<nat, Q.Stat> {
    if h.Record? && S.At(s.hub, h.k) && s.hub.broadcasters[h.k].stage.Numbered?
    then s.stats[s.hub.broadcasters[h.k].stage.msg.id := Q.Stat(0, 0)] else s.stats
  }

  ghost function Step(home: PeerId -> nat, cfg: Config, s: Server, e: Event): Server
    requires cfg.Valid() && Enabled(home, s, e)
  {
    match e
    case HubStep(h) => Server(S.Step(home, s.hub, h), LinksAfter(cfg, s, h), StatsAfter(s, h))
    case LinkStep(r, i, ev) =>
      s.(links := WithLink(s.links, r, i, Q.Step(cfg, s.links[r][i], ev)),
         stats := Q.CountStats(s.links[r][i], ev, s.stats))
  }

  ghost predicate Goes(home: PeerId -> nat, cfg: Config, s: Server, e: Event, t: Server)
    requires cfg.Valid()
  {
    Enabled(home, s, e) && t == Step(home, cfg, s, e)
  }

  ghost predicate IsRun(home: PeerId -> nat, cfg: Config, n: nat, states: seq<Server>, events: seq<Event>)
    requires cfg.Valid()
  {
    && |states| == |events| + 1 && states[0] == Start(n)
    && forall t :: 0 <= t < |events| ==> Goes(home, cfg, states[t], events[t], states[t + 1])
  }

  /** No call of the run names a peer twice. */
  predicate DistinctCalls(events: seq<Event>) {
    forall t :: 0 <= t < |events| && events[t].HubStep? ==> O.DistinctStep(events[t].e)
  }

  // ---------------------------------------------------------------- the hub inside

  /** The steps of the hub among the first t steps, and the states it goes through. */
  function HubEvents(events: seq<Event>): seq<S.Event> {
    if events == [] then []
    else
      var last := events[|events| - 1];
      HubEvents(events[..|events| - 1]) + if last.HubStep? then [last.e] else []
  }

  function HubStates(states: seq<Server>, events: seq<Event>): seq<S.Hub>
    requires |states| == |events| + 1
    decreases |events|
  {
    if events == [] then [states[0].hub]
    else
      HubStates(states[..|states| - 1], events[..|events| - 1])
      + if events[|events| - 1].HubStep? then [states[|states| - 1].hub] else []
  }

  lemma {:induction false} HubEventsDistinct(events: seq<Event>, u: nat)
    requires DistinctCalls(events) && u < |HubEvents(events)|
    ensures O.DistinctStep(HubEvents(events)[u])
  {
    if events != [] {
      var front := events[..|events| - 1];
      assert DistinctCalls(front);
      if u < |HubEvents(front)| {
        HubEventsDistinct(front, u);
      }
    }
  }

  lemma RunPrefix(home: PeerId -> nat, cfg: Config, n: nat, states: seq<Server>, events: seq<Event>, t: nat)
    requires cfg.Valid() && IsRun(home, cfg, n, states, events) && t < |states|
    ensures IsRun(home, cfg, n, states[..t + 1], events[..t])
  {
    hide Goes;
    forall u | 0 <= u < t
      ensures Goes(home, cfg, states[..t + 1][u], events[..t][u], states[..t + 1][u + 1])
    {
      assert Goes(home, cfg, states[u], events[u], states[u + 1]);
    }
  }

  lemma LongerRun(home: PeerId -> nat, n: nat, hs: seq<S.Hub>, es: seq<S.Event>, e: S.Event, h: S.Hub)
    requires T.IsRun(home, n, hs, es) && S.Enabled(home, hs[|hs| - 1], e) && h == S.Step(home, hs[|hs| - 1], e)
    ensures T.IsRun(home, n, hs + [h], es + [e])
  {
    hide S.Enabled, S.Step;
  }

  lemma HubGrows(states: seq<Server>, events: seq<Event>)
    requires |states| == |events| + 1 && events != []
    ensures var k := |events| - 1;
      && HubEvents(events) == HubEvents(events[..k]) + (if events[k].HubStep? then [events[k].e] else [])
      && HubStates(states, events)
         == HubStates(states[..k + 1], events[..k]) + (if events[k].HubStep? then [states[k + 1].hub] else [])
    ensures var k := |events| - 1; !events[k].HubStep? ==>
      HubEvents(events) == HubEvents(events[..k]) && HubStates(states, events) == HubStates(states[..k + 1], events[..k])
  {
    assert states[..|states| - 1] == states[..|events|];
  }

  lemma HubMoves(home: PeerId -> nat, cfg: Config, s: Server, e: Event, t: Server)
    requires cfg.Valid() && Goes(home, cfg, s, e, t)
    ensures if e.HubStep? then S.Enabled(home, s.hub, e.e) && t.hub == S.Step(home, s.hub, e.e) else t.hub == s.hub
  {
    hide S.Step, S.Enabled;
  }

  lemma NothingInside(home: PeerId -> nat, n: nat, states: seq<Server>, events: seq<Event>)
    requires |states| == 1 && events == [] && states[0] == Start(n)
    ensures T.IsRun(home, n, HubStates(states, events), HubEvents(events)) && HubStates(states, events)[0] == states[0].hub
  {
  }

  /** Inside every run of the server there is a run of the hub that ends in the same hub, so everything that holds of
      all runs of the hub holds here. */
  lemma {:induction false} HubInside(home: PeerId -> nat, cfg: Config, n: nat, states: seq<Server>, events: seq<Event>)
    requires cfg.Valid() && IsRun(home, cfg, n, states, events)
    ensures T.IsRun(home, n, HubStates(states, events), HubEvents(events))
    ensures |HubStates(states, events)| == |HubEvents(events)| + 1
    ensures HubStates(states, events)[|HubEvents(events)|] == states[|events|].hub
    decreases |events|
  {
    if events == [] {
      NothingInside(home, n, states, events);
    } else {
      var k := |events| - 1;
      var front, es := states[..k + 1], events[..k];
      assert Goes(home, cfg, states[k], events[k], states[k + 1]);
      hide *;
      RunPrefix(home, cfg, n, states, events, k);
      HubInside(home, cfg, n, front, es);
      HubGrows(states, events);
      HubMoves(home, cfg, states[k], events[k], states[k + 1]);
      if events[k].HubStep? {
        LongerRun(home, n, HubStates(front, es), HubEvents(es), events[k].e, states[k + 1].hub);
      }
    }
  }

  lemma HubInv(home: PeerId -> nat, cfg: Config, n: nat, states: seq<Server>, events: seq<Event>, t: nat)
    requires cfg.Valid() && IsRun(home, cfg, n, states, events) && t < |states|
    ensures S.Inv(home, states[t].hub) && |states[t].hub.rooms| == n
    ensures DistinctCalls(events) ==> O.OnceInv(states[t].hub)
  {
    RunPrefix(home, cfg, n, states, events, t);
    var hs, es := HubStates(states[..t + 1], events[..t]), HubEvents(events[..t]);
    HubInside(home, cfg, n, states[..t + 1], events[..t]);
    hide IsRun, Step, Enabled, S.Inv, O.OnceInv;
    T.RunInv(home, n, hs, es, |es|);
    if DistinctCalls(events) {
      forall u | 0 <= u < |es|
        ensures O.DistinctStep(es[u])
      {
        assert DistinctCalls(events[..t]);
        HubEventsDistinct(events[..t], u);
      }
      O.OnceRunInv(home, n, hs, es, |es|);
    }
  }
}
