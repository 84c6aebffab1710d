/** What holds of every run of the whole server: where every message addressed to a connection is, how often it was
    sent, and that acknowledgements never overtake transmissions. */
module DeliveryTheorems {
  import opened Codec
  import opened Messages
  import opened Retransmission
  import opened Sums
  import opened LinkInvariants
  import M = RoomModel
  import S = HubSystem
  import T = HubTheorems
  import O = OnceOnly
  import Q = Reliability
  import opened Delivery
  import opened DeliveryInvariants

  // ---------------------------------------------------------------- the statistics are sums

  ghost function CountedOf(id: nat): Q.Link -> int { (l: Q.Link) => l.counted[id] }

  ghost function ReportedOf(id: nat): Q.Link -> int { (l: Q.Link) => l.reported[id] }

  ghost function RoomCounted(id: nat): seq<Q.Link> -> int { (ls: seq<Q.Link>) => Total(ls, CountedOf(id)) }

  ghost function RoomReported(id: nat): seq<Q.Link> -> int { (ls: seq<Q.Link>) => Total(ls, ReportedOf(id)) }

  ghost predicate SumsAre(links: seq<seq<Q.Link>>, stats: map<nat, Q.Stat>, id: nat)
    requires id in stats
  {
    stats[id].sends == Total(links, RoomCounted(id)) && stats[id].acks == Total(links, RoomReported(id))
  }

  /** Only messages with statistics are sent to peers. */
  ghost predicate SentIn(links: seq<seq<Q.Link>>, ids: set<nat>) {
    forall r, i :: 0 <= r < |links| && 0 <= i < |links[r]| ==> forall id :: id in links[r][i].books.sent ==> id in ids
  }

  ghost predicate AllSums(links: seq<seq<Q.Link>>, stats: map<nat, Q.Stat>) {
    forall id :: id in stats ==> SumsAre(links, stats, id)
  }

  /** Exactly the recorded messages have statistics; they are the sums over all connections. */
  ghost predicate StatsInv(s: Server) {
    s.stats.Keys == s.hub.recorded && SentIn(s.links, s.stats.Keys) && AllSums(s.links, s.stats)
  }

  /** What is reported was handed over and so was counted and sent. */
  lemma ReportedIsCounted(l: Q.Link, id: nat)
    requires Q.FlowInv(l)
    ensures l.reported[id] <= l.counted[id] <= l.books.sent[id]
  {
    assert l.handed[id] <= l.counted[id];
    assert (l.reported + Q.InReport(l.reader))[id] == l.handed[id];
    assert (l.counted + l.writer.Owed())[id] == l.books.sent[id];
  }

  lemma {:induction false} NothingYet(links: seq<Q.Link>, id: nat)
    requires forall i :: 0 <= i < |links| ==> Q.FlowInv(links[i]) && id !in links[i].books.sent
    ensures Total(links, CountedOf(id)) == 0 && Total(links, ReportedOf(id)) == 0
  {
    if links != [] {
      NothingYet(links[..|links| - 1], id);
      ReportedIsCounted(links[|links| - 1], id);
    }
  }

  lemma {:induction false} NothingAnywhere(links: seq<seq<Q.Link>>, id: nat)
    requires forall r, i :: 0 <= r < |links| && 0 <= i < |links[r]| ==> Q.FlowInv(links[r][i]) && id !in links[r][i].books.sent
    ensures Total(links, RoomCounted(id)) == 0 && Total(links, RoomReported(id)) == 0
  {
    if links != [] {
      var n := |links| - 1;
      assert forall r, i :: 0 <= r < n && 0 <= i < |links[..n][r]| ==> links[..n][r][i] == links[r][i];
      NothingAnywhere(links[..n], id);
      NothingYet(links[n], id);
    }
  }

  /** What a step of a link counts, and for which message. */
  lemma StepCounts(cfg: Config, l: Q.Link, ev: Q.LinkEvent, id: nat)
    requires cfg.Valid() && Q.Enabled(l, ev)
    ensures var r := Q.Step(cfg, l, ev);
      && r.counted[id] == l.counted[id] + (if ev.CountSend? && l.writer.id == id then 1 else 0)
      && r.reported[id] == l.reported[id] + (if ev.CountAck? && l.reader.id == id then 1 else 0)
  {
    hide Q.Answers, Q.AckOf, Resends, Drops, Aged;
  }

  lemma StepSends(cfg: Config, l: Q.Link, ev: Q.LinkEvent, id: nat)
    requires cfg.Valid() && Q.Enabled(l, ev) && id in Q.Step(cfg, l, ev).books.sent
    ensures id in l.books.sent || (ev.Take? && id == ev.id) || (ev.TickVisit? && id == ev.k)
  {
    StepOnBooks(cfg, l, ev);
    hide Q.Step;
  }

  /** The statistics goroutine moves the counters as the step moves what is counted. */
  lemma StatsMove(cfg: Config, l: Q.Link, ev: Q.LinkEvent, stats: map<nat, Q.Stat>, id: nat)
    requires cfg.Valid() && Q.Enabled(l, ev) && id in stats
    ensures var r, t := Q.Step(cfg, l, ev), Q.CountStats(l, ev, stats);
      && t.Keys == stats.Keys
      && t[id].sends - stats[id].sends == r.counted[id] - l.counted[id]
      && t[id].acks - stats[id].acks == r.reported[id] - l.reported[id]
  {
    StepCounts(cfg, l, ev, id);
    hide Q.Step;
  }

  /** One link moves. */
  lemma LinkStepKeepsSums(cfg: Config, links: seq<seq<Q.Link>>, stats: map<nat, Q.Stat>, r: nat, i: nat, ev: Q.LinkEvent, id: nat)
    requires cfg.Valid() && r < |links| && i < |links[r]| && Q.Enabled(links[r][i], ev)
    requires id in stats && SumsAre(links, stats, id)
    ensures var t := Q.CountStats(links[r][i], ev, stats);
      id in t && SumsAre(WithLink(links, r, i, Q.Step(cfg, links[r][i], ev)), t, id)
  {
    var l := links[r][i];
    var d := Q.Step(cfg, l, ev);
    StatsMove(cfg, l, ev, stats, id);
    hide Q.Step, Q.CountStats, Q.Enabled, Total;
    TotalUpdate(links[r], i, d, CountedOf(id));
    TotalUpdate(links[r], i, d, ReportedOf(id));
    TotalUpdate(links, r, links[r][i := d], RoomCounted(id));
    TotalUpdate(links, r, links[r][i := d], RoomReported(id));
  }

  lemma CountKeys(l: Q.Link, ev: Q.LinkEvent, stats: map<nat, Q.Stat>)
    requires Q.Enabled(l, ev)
    ensures Q.CountStats(l, ev, stats).Keys == stats.Keys
  {
  }

  lemma MoveKeepsSent(cfg: Config, links: seq<seq<Q.Link>>, ids: set<nat>, r: nat, i: nat, ev: Q.LinkEvent)
    requires cfg.Valid() && SentIn(links, ids) && r < |links| && i < |links[r]|
    requires Q.Enabled(links[r][i], ev) && LinkInv(cfg, links[r][i]) && (ev.Take? ==> ev.id in ids)
    ensures SentIn(WithLink(links, r, i, Q.Step(cfg, links[r][i], ev)), ids)
  {
    var l := links[r][i];
    assert ev.TickVisit? ==> ev.k in l.books.sent;
    var d := Q.Step(cfg, l, ev);
    forall id | id in d.books.sent
      ensures id in ids
    {
      StepSends(cfg, l, ev, id);
    }
    hide Q.Step, Q.Enabled, LinkInv;
  }

  /** One link moves, and what it counts is counted. */
  lemma MoveKeepsStats(cfg: Config, links: seq<seq<Q.Link>>, stats: map<nat, Q.Stat>, r: nat, i: nat, ev: Q.LinkEvent)
    requires cfg.Valid() && SentIn(links, stats.Keys) && AllSums(links, stats) && r < |links| && i < |links[r]|
    requires Q.Enabled(links[r][i], ev) && LinkInv(cfg, links[r][i]) && (ev.Take? ==> ev.id in stats)
    ensures var l, t := WithLink(links, r, i, Q.Step(cfg, links[r][i], ev)), Q.CountStats(links[r][i], ev, stats);
      t.Keys == stats.Keys && SentIn(l, t.Keys) && AllSums(l, t)
  {
    CountKeys(links[r][i], ev, stats);
    MoveKeepsSent(cfg, links, stats.Keys, r, i, ev);
    hide Q.Step, Q.Enabled, Q.CountStats, LinkInv, SentIn;
    forall id | id in stats
      ensures SumsAre(WithLink(links, r, i, Q.Step(cfg, links[r][i], ev)), Q.CountStats(links[r][i], ev, stats), id)
    {
      LinkStepKeepsSums(cfg, links, stats, r, i, ev, id);
    }
  }

  ghost predicate AllFlow(links: seq<seq<Q.Link>>) {
    forall r, i :: 0 <= r < |links| && 0 <= i < |links[r]| ==> Q.FlowInv(links[r][i])
  }

  /** A message that is recorded now was not sent before. */
  lemma RecordKeepsStats(links: seq<seq<Q.Link>>, stats: map<nat, Q.Stat>, id: nat)
    requires SentIn(links, stats.Keys) && AllSums(links, stats) && AllFlow(links) && id !in stats
    ensures SentIn(links, stats[id := Q.Stat(0, 0)].Keys) && AllSums(links, stats[id := Q.Stat(0, 0)])
  {
    hide Q.FlowInv;
    NothingAnywhere(links, id);
    hide Total, AllFlow;
    var after := stats[id := Q.Stat(0, 0)];
    forall x | x in after
      ensures SumsAre(links, after, x)
    {
      assert x == id || SumsAre(links, stats, x);
    }
  }

  lemma OpenKeepsStats(links: seq<seq<Q.Link>>, stats: map<nat, Q.Stat>, r: nat)
    requires SentIn(links, stats.Keys) && AllSums(links, stats) && r < |links|
    ensures var l := links[r := links[r] + [Q.NewLink]]; SentIn(l, stats.Keys) && AllSums(l, stats)
  {
    var ls := links[r] + [Q.NewLink];
    forall id | id in stats
      ensures SumsAre(links[r := ls], stats, id)
    {
      assert SumsAre(links, stats, id);
      TotalAppend(links[r], Q.NewLink, CountedOf(id));
      TotalAppend(links[r], Q.NewLink, ReportedOf(id));
      hide Total;
      TotalUpdate(links, r, ls, RoomCounted(id));
      TotalUpdate(links, r, ls, RoomReported(id));
    }
  }

  /** A writer takes only messages that have their record. */
  lemma TakenIsRecorded(home: PeerId -> nat, s: Server, r: nat, i: nat)
    requires S.Inv(home, s.hub) && AddressedInv(s.hub) && HasLink(s, r, i) && T.ConnAt(s.hub, r, i).send != []
    ensures Taking(T.ConnAt(s.hub, r, i)).Take? ==> Taking(T.ConnAt(s.hub, r, i)).id in s.hub.recorded
  {
    var c := T.ConnAt(s.hub, r, i);
    ChannelsOk(home, s.hub, r, i);
    if !c.send[0].isBrAll {
      HeadIsAddressed(c);
      hide S.Inv, M.RoomInv;
      assert c.send[0].id in Ids(PeerPart(c.hist));
    }
  }

  lemma RecordedGrows(home: PeerId -> nat, s: S.Hub, e: S.Event)
    requires S.Enabled(home, s, e)
    ensures S.Step(home, s, e).recorded == s.recorded + if e.Record? then {s.broadcasters[e.k].stage.msg.id} else {}
    ensures s.counter <= S.Step(home, s, e).counter
  {
    hide M.Step, M.Enabled, M.Indexed;
  }

  lemma PairsFlow(cfg: Config, s: Server)
    requires cfg.Valid() && Shaped(s) && PairsInv(cfg, s, false)
    ensures AllFlow(s.links)
  {
    forall r, i | 0 <= r < |s.links| && 0 <= i < |s.links[r]|
      ensures Q.FlowInv(s.links[r][i])
    {
      assert HasLink(s, r, i);
      hide Q.FlowInv;
    }
  }

  /** The links and the statistics after a step. */
  lemma StepOnStats(home: PeerId -> nat, cfg: Config, s: Server, e: Event)
    requires cfg.Valid() && Enabled(home, s, e)
    ensures var t := Step(home, cfg, s, e);
      if e.LinkStep? then
        && HasLink(s, e.r, e.i) && Q.Enabled(s.links[e.r][e.i], e.ev) && !e.ev.Take?
        && t.hub.recorded == s.hub.recorded
        && t.links == WithLink(s.links, e.r, e.i, Q.Step(cfg, s.links[e.r][e.i], e.ev))
        && t.stats == Q.CountStats(s.links[e.r][e.i], e.ev, s.stats)
      else if IsTake(e.e) then
        var r, i := e.e.r, e.e.ev.i;
        && HasLink(s, r, i) && T.ConnAt(s.hub, r, i).send != []
        && Q.Enabled(s.links[r][i], Taking(T.ConnAt(s.hub, r, i)))
        && t.hub.recorded == s.hub.recorded && t.stats == s.stats
        && t.links == WithLink(s.links, r, i, Q.Step(cfg, s.links[r][i], Taking(T.ConnAt(s.hub, r, i))))
      else
        && t.links == (if e.e.Local? && e.e.ev.Open? && e.e.r < |s.links|
                       then s.links[e.e.r := s.links[e.e.r] + [Q.NewLink]] else s.links)
        && (if e.e.Record? then
              && S.At(s.hub, e.e.k) && s.hub.broadcasters[e.e.k].stage.Numbered?
              && t.hub.recorded == s.hub.recorded + {s.hub.broadcasters[e.e.k].stage.msg.id}
              && t.stats == s.stats[s.hub.broadcasters[e.e.k].stage.msg.id := Q.Stat(0, 0)]
            else t.hub.recorded == s.hub.recorded && t.stats == s.stats)
  {
    if e.HubStep? {
      RecordedGrows(home, s.hub, e.e);
    }
    hide S.Step, Q.Step, Q.Enabled, Q.CountStats;
  }

  lemma TakeCountsNothing(l: Q.Link, ev: Q.LinkEvent, stats: map<nat, Q.Stat>)
    requires Q.Enabled(l, ev) && (ev.Take? || ev.TakeAll?)
    ensures Q.CountStats(l, ev, stats) == stats
  {
  }

  lemma LinkStepKeepsStats(home: PeerId -> nat, cfg: Config, s: Server, e: Event)
    requires cfg.Valid() && S.Inv(home, s.hub) && AddressedInv(s.hub) && Shaped(s) && Enabled(home, s, e)
    requires StatsInv(s) && PairsInv(cfg, s, false) && e.LinkStep?
    ensures StatsInv(Step(home, cfg, s, e))
  {
    StepOnStats(home, cfg, s, e);
    hide Enabled, Step, Q.Step, Q.Enabled, Q.CountStats, SentIn, AllSums, S.Inv, LinkInv, Conserved, Matches;
    assert PairInv(cfg, T.ConnAt(s.hub, e.r, e.i), s.links[e.r][e.i], false);
    MoveKeepsStats(cfg, s.links, s.stats, e.r, e.i, e.ev);
  }

  lemma TakeKeepsStats(home: PeerId -> nat, cfg: Config, s: Server, e: Event)
    requires cfg.Valid() && S.Inv(home, s.hub) && AddressedInv(s.hub) && Shaped(s) && Enabled(home, s, e)
    requires StatsInv(s) && PairsInv(cfg, s, false) && e.HubStep? && IsTake(e.e)
    ensures StatsInv(Step(home, cfg, s, e))
  {
    StepOnStats(home, cfg, s, e);
    hide Enabled, Step, Q.Step, Q.Enabled, Q.CountStats, SentIn, AllSums, S.Inv, LinkInv, Conserved, Matches;
    var r, i := e.e.r, e.e.ev.i;
    var ev := Taking(T.ConnAt(s.hub, r, i));
    TakenIsRecorded(home, s, r, i);
    assert PairInv(cfg, T.ConnAt(s.hub, r, i), s.links[r][i], false);
    TakeCountsNothing(s.links[r][i], ev, s.stats);
    MoveKeepsStats(cfg, s.links, s.stats, r, i, ev);
  }

  lemma HubKeepsStats(home: PeerId -> nat, cfg: Config, s: Server, e: Event)
    requires cfg.Valid() && S.Inv(home, s.hub) && AddressedInv(s.hub) && Shaped(s) && Enabled(home, s, e)
    requires StatsInv(s) && PairsInv(cfg, s, false) && e.HubStep? && !IsTake(e.e)
    ensures StatsInv(Step(home, cfg, s, e))
  {
    StepOnStats(home, cfg, s, e);
    hide Enabled, Step, Q.Step, Q.Enabled, Q.CountStats, SentIn, AllSums, S.Inv, LinkInv, Conserved, Matches;
    if e.e.Record? {
      PairsFlow(cfg, s);
      assert BroadcasterOk(s.hub.broadcasters[e.e.k], s.hub.recorded);
      RecordKeepsStats(s.links, s.stats, s.hub.broadcasters[e.e.k].stage.msg.id);
    } else if e.e.Local? && e.e.ev.Open? && e.e.r < |s.links| {
      OpenKeepsStats(s.links, s.stats, e.e.r);
    }
  }

  lemma StepKeepsStats(home: PeerId -> nat, cfg: Config, s: Server, e: Event)
    requires cfg.Valid() && S.Inv(home, s.hub) && AddressedInv(s.hub) && Shaped(s) && Enabled(home, s, e)
    requires StatsInv(s) && PairsInv(cfg, s, false)
    ensures StatsInv(Step(home, cfg, s, e))
  {
    hide *;
    if e.LinkStep? {
      LinkStepKeepsStats(home, cfg, s, e);
    } else if IsTake(e.e) {
      TakeKeepsStats(home, cfg, s, e);
    } else {
      HubKeepsStats(home, cfg, s, e);
    }
  }

  // ---------------------------------------------------------------- every run

  ghost predicate ServerInv(cfg: Config, s: Server, once: bool)
    requires cfg.Valid()
  {
    Shaped(s) && AddressedInv(s.hub) && PairsInv(cfg, s, once) && StatsInv(s)
  }

  lemma StartsRight(home: PeerId -> nat, cfg: Config, n: nat, states: seq<Server>, events: seq<Event>)
    requires cfg.Valid() && IsRun(home, cfg, n, states, events)
    ensures ServerInv(cfg, states[0], DistinctCalls(events))
  {
    hide Goes;
  }

  lemma StepKeepsServer(home: PeerId -> nat, cfg: Config, s: Server, e: Event, once: bool)
    requires cfg.Valid() && S.Inv(home, s.hub) && ServerInv(cfg, s, once) && Enabled(home, s, e) && s.hub.counter < TWO_32
    requires once ==> O.OnceInv(s.hub)
    ensures ServerInv(cfg, Step(home, cfg, s, e), once)
  {
    StepKeepsShape(home, cfg, s, e);
    StepKeepsPairs(home, cfg, s, e, once);
    hide S.Step, S.Inv, Shaped, StatsInv, O.OnceInv, PairInv, Q.Step, Q.Enabled, S.Enabled;
    assert PairsInv(cfg, s, false);
    StepKeepsStats(home, cfg, s, e);
    if e.HubStep? {
      StepKeepsAddressed(home, s.hub, e.e);
    }
    hide AddressedInv, PairsInv;
  }

  /** The hypotheses: message ids fit 32 bits, and for the second claim no call names a peer twice. */
  lemma {:induction false} ServerInRun(home: PeerId -> nat, cfg: Config, n: nat, states: seq<Server>, events: seq<Event>, t: nat)
    requires cfg.Valid() && IsRun(home, cfg, n, states, events) && t < |states| && states[t].hub.counter < TWO_32
    ensures ServerInv(cfg, states[t], DistinctCalls(events)) && S.Inv(home, states[t].hub)
  {
    hide *;
    HubInv(home, cfg, n, states, events, t);
    if t == 0 {
      StartsRight(home, cfg, n, states, events);
    } else {
      SmallerBefore(home, cfg, n, states, events, t);
      HubInv(home, cfg, n, states, events, t - 1);
      ServerInRun(home, cfg, n, states, events, t - 1);
      StepKeepsServer(home, cfg, states[t - 1], events[t - 1], DistinctCalls(events));
    }
  }

  /** In every interleaving, no message has more acknowledgements counted than transmissions, even though
      transmissions are counted after they are written and the two counts come from different goroutines. */
  lemma AcksNeverOvertakeSends(home: PeerId -> nat, cfg: Config, n: nat, states: seq<Server>, events: seq<Event>, t: nat, id: nat)
    requires cfg.Valid() && IsRun(home, cfg, n, states, events) && t < |states| && states[t].hub.counter < TWO_32
    requires id in states[t].stats
    ensures states[t].stats[id].acks <= states[t].stats[id].sends
  {
    ServerInRun(home, cfg, n, states, events, t);
    var s := states[t];
    assert SumsAre(s.links, s.stats, id);
    hide IsRun, S.Inv, Total, AddressedInv, StatsInv;
    forall r | 0 <= r < |s.links|
      ensures RoomReported(id)(s.links[r]) <= RoomCounted(id)(s.links[r])
    {
      forall i | 0 <= i < |s.links[r]|
        ensures ReportedOf(id)(s.links[r][i]) <= CountedOf(id)(s.links[r][i])
      {
        assert HasLink(s, r, i) && PairInv(cfg, T.ConnAt(s.hub, r, i), s.links[r][i], DistinctCalls(events));
        ReportedIsCounted(s.links[r][i], id);
      }
      TotalMonotone(s.links[r], ReportedOf(id), CountedOf(id));
    }
    TotalMonotone(s.links, RoomReported(id), RoomCounted(id));
  }

  /** Everything that was addressed to the connection, and what is still in its channel. */
  ghost function Addressed(s: Server, r: nat, i: nat): set<nat>
    requires HasLink(s, r, i)
  {
    Ids(PeerPart(T.ConnAt(s.hub, r, i).hist))
  }

  ghost function Queued(s: Server, r: nat, i: nat): set<nat>
    requires HasLink(s, r, i)
  {
    Ids(PeerPart(T.ConnAt(s.hub, r, i).send))
  }

  lemma {:induction false} PeerPartOfSum(a: seq<PushMsg>, b: seq<PushMsg>)
    ensures PeerPart(a + b) == PeerPart(a) + PeerPart(b)
  {
    if b == [] {
      assert a + b == a && PeerPart(a) + [] == PeerPart(a);
    } else {
      var front, m := b[..|b| - 1], b[|b| - 1];
      PeerPartOfSum(a, front);
      assert (a + b)[..|a + b| - 1] == a + front && (a + b)[|a + b| - 1] == m;
      var last := if m.isBrAll then [] else [m];
      assert PeerPart(a + b) == PeerPart(a + front) + last && PeerPart(b) == PeerPart(front) + last;
      hide PeerPart;
      assert PeerPart(a) + PeerPart(front) + last == PeerPart(a) + (PeerPart(front) + last);
    }
  }

  lemma SplitIds(a: seq<PushMsg>, b: seq<PushMsg>)
    requires StrictlyOrdered(a + b)
    ensures Ids(a + b) == Ids(a) + Ids(b) && Ids(a) !! Ids(b)
  {
    assert forall m :: m in a + b <==> m in a || m in b;
    forall x, y | x in a && y in b
      ensures x.id < y.id
    {
      var j :| 0 <= j < |a| && a[j] == x;
      var k :| 0 <= k < |b| && b[k] == y;
      assert (a + b)[j] == x && (a + b)[|a| + k] == y;
    }
  }

  /** What was addressed to a connection is either still in its channel, or was taken by its writer. */
  lemma AddressedIsQueuedOrTaken(c: M.Conn, l: Q.Link)
    requires M.ChannelInv(c) && Matches(c, l) && StrictlyOrdered(PeerPart(c.hist))
    ensures Ids(PeerPart(c.hist)) == Ids(PeerPart(c.send)) + l.books.taken
    ensures Ids(PeerPart(c.send)) !! l.books.taken
  {
    assert c.hist == Handed(c) + c.send;
    PeerPartOfSum(Handed(c), c.send);
    SplitIds(PeerPart(Handed(c)), PeerPart(c.send));
  }

  lemma OnePlaceEach(home: PeerId -> nat, cfg: Config, s: Server, r: nat, i: nat)
    requires cfg.Valid() && S.Inv(home, s.hub) && O.OnceInv(s.hub) && HasLink(s, r, i)
    requires PairInv(cfg, T.ConnAt(s.hub, r, i), s.links[r][i], true)
    ensures var queued, l := Queued(s, r, i), s.links[r][i]; var b := l.books;
      && Addressed(s, r, i) == queued + b.table.Keys + b.acked + b.expired
      && queued !! b.table.Keys !! b.acked !! b.expired
      && (forall id :: id in b.acked ==> id in l.received && id in l.handed)
      && (forall id :: id in l.handed ==> id in b.acked + b.expired)
      && (forall id :: id in b.table.Keys + b.acked + b.expired ==> 1 <= b.sent[id] <= cfg.maxRetry)
      && (forall id :: id in b.expired ==> b.sent[id] == if cfg.maxWait < cfg.maxRetry then 1 else cfg.maxRetry)
      && (forall id :: id in b.sent ==> id in Addressed(s, r, i))
  {
    hide S.Inv, O.OnceInv, M.RoomInv, M.ChannelInv, M.PeerOrderInv, LinkInv, Conserved, Matches, PeerPart;
    ChannelsOk(home, s.hub, r, i);
    AddressedInOrder(s.hub, r, i);
    AddressedIsQueuedOrTaken(T.ConnAt(s.hub, r, i), s.links[r][i]);
    TakenWereSent(cfg, s.links[r][i]);
  }

  /** End to end, in every run whose calls name no peer twice: every message that the hub addressed to a connection is
      in exactly one of four places, still in its channel, pending at the writer, acknowledged, or expired; an
      acknowledged one was really received by the client; what the writer took was transmitted at least once and at
      most `maxRetry` times, and what expired exactly that often (or once, if there is no retransmission at all). */
  lemma ReliableDelivery(home: PeerId -> nat, cfg: Config, n: nat, states: seq<Server>, events: seq<Event>, t: nat, r: nat, i: nat)
    requires cfg.Valid() && IsRun(home, cfg, n, states, events) && t < |states| && states[t].hub.counter < TWO_32
    requires DistinctCalls(events) && HasLink(states[t], r, i)
    ensures var queued, l := Queued(states[t], r, i), states[t].links[r][i]; var b := l.books;
      && Addressed(states[t], r, i) == queued + b.table.Keys + b.acked + b.expired
      && queued !! b.table.Keys !! b.acked !! b.expired
      && (forall id :: id in b.acked ==> id in l.received && id in l.handed)
      && (forall id :: id in l.handed ==> id in b.acked + b.expired)
      && (forall id :: id in b.table.Keys + b.acked + b.expired ==> 1 <= b.sent[id] <= cfg.maxRetry)
      && (forall id :: id in b.expired ==> b.sent[id] == if cfg.maxWait < cfg.maxRetry then 1 else cfg.maxRetry)
      && (forall id :: id in b.sent ==> id in Addressed(states[t], r, i))
  {
    hide *;
    PairInRun(home, cfg, n, states, events, t, r, i);
    OnePlaceEach(home, cfg, states[t], r, i);
  }

  lemma TakenWereSent(cfg: Config, l: Q.Link)
    requires cfg.Valid() && LinkInv(cfg, l) && Conserved(cfg, l)
    ensures var b := l.books;
      && b.table.Keys + b.acked + b.expired == b.taken && b.table.Keys !! b.acked !! b.expired
      && (forall id :: id in b.acked ==> id in l.received && id in l.handed)
      && (forall id :: id in l.handed ==> id in b.acked + b.expired)
      && (forall id :: id in b.taken ==> 1 <= b.sent[id] <= cfg.maxRetry)
      && (forall id :: id in b.expired ==> b.sent[id] == if cfg.maxWait < cfg.maxRetry then 1 else cfg.maxRetry)
      && (forall id :: id in b.sent ==> id in b.taken)
  {
    var b := l.books;
    forall id: nat
      ensures id in b.taken ==> 1 <= b.sent[id] <= cfg.maxRetry
      ensures id in b.expired ==> b.sent[id] == if cfg.maxWait < cfg.maxRetry then 1 else cfg.maxRetry
      ensures id in b.sent ==> id in b.taken
    {
      assert TransmissionOk(cfg, b, id);
      assert id in b.table ==> Sound(cfg, b.table[id]);
    }
  }

  /** Between two points of a run: not transmitted again, not in the table, and still acknowledged or expired. */
  predicate StaysFinal(a: Q.Books, b: Q.Books, id: nat) {
    && b.sent[id] == a.sent[id] && id !in b.table
    && (id in a.acked ==> id in b.acked) && (id in a.expired ==> id in b.expired)
  }

  lemma StepLeavesFinal(cfg: Config, l: Q.Link, ev: Q.LinkEvent, id: nat)
    requires cfg.Valid() && Conserved(cfg, l) && Q.Enabled(l, ev) && FreshTake(l, ev)
    requires id in l.books.acked + l.books.expired
    ensures StaysFinal(l.books, Q.Step(cfg, l, ev).books, id)
  {
    StepOnBooks(cfg, l, ev);
    hide Q.Step;
  }

  lemma LinkStaysFinal(home: PeerId -> nat, cfg: Config, s: Server, e: Event, r: nat, i: nat, id: nat)
    requires cfg.Valid() && S.Inv(home, s.hub) && O.OnceInv(s.hub) && s.hub.counter < TWO_32 && Enabled(home, s, e) && HasLink(s, r, i)
    requires PairInv(cfg, T.ConnAt(s.hub, r, i), s.links[r][i], true)
    requires id in s.links[r][i].books.acked + s.links[r][i].books.expired
    ensures HasLink(Step(home, cfg, s, e), r, i)
    ensures StaysFinal(s.links[r][i].books, Step(home, cfg, s, e).links[r][i].books, id)
  {
    TakesFit(home, cfg, s, e, r, i, true);
    OldMatchKept(home, cfg, s, e, r, i);
    StepOnLink(home, cfg, s, e, r, i);
    var own := Own(s, e, r, i);
    hide Step, Enabled, Own, S.Inv, O.OnceInv, Q.Step, Q.Enabled, LinkInv;
    if own.Some? {
      StepLeavesFinal(cfg, s.links[r][i], own.value, id);
    }
  }

  /** What is known of one connection at one point of a run whose calls name no peer twice. */
  lemma PairInRun(home: PeerId -> nat, cfg: Config, n: nat, states: seq<Server>, events: seq<Event>, t: nat, r: nat, i: nat)
    requires cfg.Valid() && IsRun(home, cfg, n, states, events) && t < |states| && states[t].hub.counter < TWO_32
    requires DistinctCalls(events) && HasLink(states[t], r, i)
    ensures S.Inv(home, states[t].hub) && O.OnceInv(states[t].hub)
    ensures PairInv(cfg, T.ConnAt(states[t].hub, r, i), states[t].links[r][i], true)
  {
    ServerInRun(home, cfg, n, states, events, t);
    HubInv(home, cfg, n, states, events, t);
    hide IsRun, S.Inv, O.OnceInv, PairInv;
  }

  /** A message that has left the table stays acknowledged or expired, and is never transmitted again. */
  lemma {:induction false} LeavingIsFinal(home: PeerId -> nat, cfg: Config, n: nat, states: seq<Server>, events: seq<Event>,
                                          t: nat, u: nat, r: nat, i: nat, id: nat)
    requires cfg.Valid() && IsRun(home, cfg, n, states, events) && t <= u < |states| && states[u].hub.counter < TWO_32
    requires DistinctCalls(events) && HasLink(states[t], r, i)
    requires id in states[t].links[r][i].books.acked + states[t].links[r][i].books.expired
    ensures HasLink(states[u], r, i)
    ensures StaysFinal(states[t].links[r][i].books, states[u].links[r][i].books, id)
  {
    hide IsRun, S.Inv, O.OnceInv, LinkInv, Conserved, Step, Enabled, DistinctCalls, PairInv, StaysFinal, ServerInv;
    if t == u {
      PairInRun(home, cfg, n, states, events, t, r, i);
      LeftTheTable(cfg, T.ConnAt(states[t].hub, r, i), states[t].links[r][i], id);
    } else {
      SmallerBefore(home, cfg, n, states, events, u);
      LeavingIsFinal(home, cfg, n, states, events, t, u - 1, r, i, id);
      StaysLeft(states[t].links[r][i].books, states[u - 1].links[r][i].books, id);
      PairInRun(home, cfg, n, states, events, u - 1, r, i);
      LinkStaysFinal(home, cfg, states[u - 1], events[u - 1], r, i, id);
      StaysFinalTwice(states[t].links[r][i].books, states[u - 1].links[r][i].books, states[u].links[r][i].books, id);
    }
  }

  lemma SmallerBefore(home: PeerId -> nat, cfg: Config, n: nat, states: seq<Server>, events: seq<Event>, u: nat)
    requires cfg.Valid() && IsRun(home, cfg, n, states, events) && 1 <= u < |states| && states[u].hub.counter < TWO_32
    ensures |events| == |states| - 1 && states[u - 1].hub.counter < TWO_32
    ensures Enabled(home, states[u - 1], events[u - 1]) && states[u] == Step(home, cfg, states[u - 1], events[u - 1])
  {
    assert Goes(home, cfg, states[u - 1], events[u - 1], states[u]);
    hide S.Step, S.Enabled;
    if events[u - 1].HubStep? {
      RecordedGrows(home, states[u - 1].hub, events[u - 1].e);
    }
  }

  lemma LeftTheTable(cfg: Config, c: M.Conn, l: Q.Link, id: nat)
    requires cfg.Valid() && PairInv(cfg, c, l, true) && id in l.books.acked + l.books.expired
    ensures StaysFinal(l.books, l.books, id)
  {
  }

  lemma StaysLeft(a: Q.Books, b: Q.Books, id: nat)
    requires StaysFinal(a, b, id) && id in a.acked + a.expired
    ensures id in b.acked + b.expired
  {
  }

  lemma StaysFinalTwice(a: Q.Books, b: Q.Books, c: Q.Books, id: nat)
    requires StaysFinal(a, b, id) && StaysFinal(b, c, id)
    ensures StaysFinal(a, c, id)
  {
  }
}
