/** A room of the server as the code keeps it: a map of connections, a channel of broadcasts, a counter and the
    tokens of its rate limiter. Every step of the room loop refines the step of the room model. */
module Hubs {
  import opened Messages
  import opened Connections
  import M = RoomModel
  import R = Retransmission
  import Q = Reliability

  ghost function Views(cs: seq<Connection>, repr: set<Connection>): (s: seq<M.Conn>)
    requires forall i :: 0 <= i < |cs| ==> cs[i] in repr
    reads repr
    ensures |s| == |cs| && forall i :: 0 <= i < |cs| ==> s[i] == cs[i].View()
  {
    seq(|cs|, i requires 0 <= i < |cs| && cs[i] in repr reads repr => cs[i].View())
  }

  /** The room when the entry of p, if there is one, has been told that it is replaced. */
  ghost function Replaced(room: M.Room, p: PeerId): M.Room
    requires M.Indexed(room)
  {
    if p !in room.members then room
    else
      var j := room.members[p];
      room.(conns := room.conns[j := M.Dropped(room.conns[j], |room.log|)], overwrites := room.overwrites + 1)
  }

  /** A registration replaces, marks the connection and stores it. */
  lemma RegisterInSteps(room: M.Room, i: nat)
    requires M.Indexed(room) && M.Enabled(room, M.Join(i))
    ensures |Replaced(room, room.conns[i].peer).conns| == |room.conns|
    ensures Replaced(room, room.conns[i].peer).log == room.log
    ensures var once, p := Replaced(room, room.conns[i].peer), room.conns[i].peer;
      M.Step(room, M.Join(i)) == once.(conns := once.conns[i := M.Joining(once.conns[i], |room.log|)],
                                       members := once.members[p := i], peercnt := once.peercnt + 1)
  {
  }

  lemma OpenStep(room: M.Room, p: PeerId)
    requires M.Indexed(room) && M.Enabled(room, M.Open(p))
    ensures M.Step(room, M.Open(p)) == room.(conns := room.conns + [M.NewConn(p)])
  {
  }

  class Hub {
    var connections: map<PeerId, Connection>
    var broadcast: seq<PushMsg>
    var peercnt: int
    var throttle: nat
    var position: M.Delivery           // where the room loop is
    var panicked: bool
    ghost var born: seq<Connection>  // every connection ever opened for a peer of this room
    ghost var repr: set<Connection>  // the same, as a set
    ghost var log: seq<PushMsg>
    ghost var overwrites: nat

    constructor ()
      ensures Valid() && View() == M.EmptyRoom && born == [] && repr == {}
    {
      connections, broadcast, peercnt, throttle, position, panicked := map[], [], 0, 0, M.Idle, false;
      born, repr, log, overwrites := [], {}, [], 0;
    }

    /** Connections are told apart by their index; the map holds connections that were opened here. */
    ghost predicate Valid()
      reads this`born, this`repr, this`connections
    {
      && (forall i :: 0 <= i < |born| ==> born[i].index == i && born[i] in repr)
      && (forall p :: p in connections ==> Knows(connections[p]))
    }

    ghost predicate Knows(c: Connection)
      reads this`born
    {
      c.index < |born| && born[c.index] == c
    }

    ghost function Members(): map<PeerId, nat>
      reads this`connections
    {
      map p | p in connections :: connections[p].index
    }

    ghost function Conns(): seq<M.Conn>
      requires Valid()
      reads this`born, this`repr, this`connections, repr
    {
      Views(born, repr)
    }

    ghost function View(): M.Room
      requires Valid()
      reads this, repr
    {
      M.Room(Members(), broadcast, position, peercnt, throttle, Conns(), panicked, log, overwrites)
    }

    /** When one connection changes, so does its place in the view. */
    twostate lemma OneChanged(c: Connection)
      requires old(Valid()) && Valid() && old(Knows(c)) && born == old(born)
      requires forall d :: d in old(repr) && d != c ==> d.View() == old(d.View())
      ensures Conns() == old(Conns())[c.index := c.View()]
    {
      assert |Conns()| == |old(Conns())|;
      forall i | 0 <= i < |born|
        ensures Conns()[i] == old(Conns())[c.index := c.View()][i]
      {
        if i != c.index {
          assert born[i] != c;
        }
      }
    }

    lemma ConnsAt(c: Connection)
      requires Valid() && Knows(c)
      ensures c in repr && c.index < |Conns()| == |born| && Conns()[c.index] == c.View()
    {
    }

    lemma MembersAt(p: PeerId)
      ensures p in Members() <==> p in connections
      ensures p in connections ==> Members()[p] == connections[p].index
      ensures Members().Keys == connections.Keys
    {
    }

    /** What a step does that touches only one connection. */
    twostate lemma OnlyConn(c: Connection)
      requires old(Valid()) && Valid() && old(Knows(c)) && unchanged(this)
      requires forall d :: d in old(repr) && d != c ==> d.View() == old(d.View())
      ensures View() == old(View()).(conns := old(View()).conns[c.index := c.View()])
    {
      OneChanged(c);
    }

    ghost method SetLeft(d: Connection, at: int)
      requires Valid() && Knows(d)
      modifies d`left
      ensures View() == old(View()).(conns := old(View()).conns[d.index := M.Dropped(old(d.View()), at)])
    {
      d.left := Some(at);
      OnlyConn(d);
    }

    ghost method SetJoined(c: Connection)
      requires Valid() && Knows(c)
      modifies c`phase, c`start
      ensures View() == old(View()).(conns := old(View()).conns[c.index := M.Joining(old(c.View()), |log|)])
    {
      c.phase, c.start := M.Joined, |log|;
      OnlyConn(c);
    }

    ghost method SetPhase(c: Connection, phase: M.Phase)
      requires Valid() && Knows(c)
      modifies c`phase
      ensures View() == old(View()).(conns := old(View()).conns[c.index := M.Moved(old(c.View()), phase)])
    {
      c.phase := phase;
      OnlyConn(c);
    }

    /** close(c.send), by the unregistration of c. */
    method Close(c: Connection)
      requires Valid() && Knows(c)
      modifies c`closed, c`phase
      ensures View() == old(View()).(conns := old(View()).conns[c.index := M.Closing(old(c.View()))])
    {
      c.closed := true;
      c.phase := M.Left;
      OnlyConn(c);
    }

    /** close(c.send), because its channel is full. */
    method Evict(c: Connection)
      requires Valid() && Knows(c)
      modifies c`closed, c`evicted, c`left
      ensures View() == old(View()).(conns := old(View()).conns[c.index := M.Evicted(old(c.View()), |log| - 1)])
    {
      c.closed := true;
      c.evicted, c.left := true, Some(|log| - 1);
      OnlyConn(c);
    }

    /** c.send <- m */
    method Send(c: Connection, m: PushMsg)
      requires Valid() && Knows(c)
      modifies c`send, c`hist
      ensures View() == old(View()).(conns := old(View()).conns[c.index := M.Accept(old(c.View()), m)])
    {
      c.send := c.send + [m];
      c.hist := c.hist + [m];
      OnlyConn(c);
    }

    method Store(c: Connection)
      requires Valid() && Knows(c)
      modifies this`connections, this`peercnt
      ensures Valid() && View() == old(View()).(members := old(View()).members[c.peerId := c.index],
                                                peercnt := old(View()).peercnt + 1)
    {
      connections := connections[c.peerId := c];
      peercnt := peercnt + 1;
      assert Members() == old(Members())[c.peerId := c.index];
    }

    method Delete(p: PeerId)
      requires Valid()
      modifies this`connections, this`peercnt
      ensures Valid() && View() == old(View()).(members := old(View()).members - {p},
                                                peercnt := old(View()).peercnt - 1)
    {
      connections := connections - {p};
      peercnt := peercnt - 1;
      assert Members() == old(Members()) - {p};
    }

    ghost method OneMoreReplaced()
      requires Valid()
      modifies this`overwrites
      ensures Valid() && View() == old(View()).(overwrites := old(View()).overwrites + 1)
    {
      overwrites := overwrites + 1;
    }

    /** Bookkeeping for a registration that is about to replace an entry. */
    ghost method NoteReplaced(p: PeerId)
      requires Valid() && M.Indexed(View())
      modifies this`overwrites, repr
      ensures Valid() && View() == Replaced(old(View()), p)
    {
      MembersAt(p);
      hide Conns;
      if p in connections {
        ConnsAt(connections[p]);
        hide View, M.Dropped;
        SetLeft(connections[p], |log|);
        OneMoreReplaced();
      }
    }

    /** The loop receives from the register channel. */
    method Register(c: Connection)
      requires Valid() && Knows(c) && M.Indexed(View()) && M.Enabled(View(), M.Join(c.index))
      modifies this`connections, this`peercnt, this`overwrites, repr
      ensures Valid() && View() == M.Step(old(View()), M.Join(c.index))
    {
      RegisterInSteps(View(), c.index);
      ConnsAt(c);
      hide M.Step, M.Enabled, M.Indexed, Conns, M.Joining, Replaced;
      NoteReplaced(c.peerId);
      ConnsAt(c);
      SetJoined(c);
      Store(c);
    }

    /** The unregistration of a connection whose id is in the map and whose channel is open. */
    method Remove(c: Connection)
      requires Valid() && Knows(c) && c.peerId in connections && !c.closed
      requires M.Indexed(View())
      modifies this`connections, this`peercnt, repr
      ensures Valid() && View() == M.Unregister(old(View()), c.index)
    {
      var d := connections[c.peerId];
      ConnsAt(c);
      ConnsAt(d);
      MembersAt(c.peerId);
      hide M.Indexed, Conns, View;
      SetLeft(d, |log|);
      Delete(c.peerId);
      ConnsAt(c);
      Close(c);
    }

    /** The loop receives from the unregister channel. Closing a channel twice ends the process. */
    method Unregister(c: Connection)
      requires Valid() && Knows(c) && M.Indexed(View()) && M.Enabled(View(), M.Leave(c.index))
      modifies this`connections, this`peercnt, this`panicked, repr
      ensures Valid() && View() == M.Step(old(View()), M.Leave(c.index))
    {
      assert M.Step(View(), M.Leave(c.index)) == M.Unregister(View(), c.index);
      ConnsAt(c);
      MembersAt(c.peerId);
      hide M.Step, M.Enabled, Conns;
      if c.peerId in connections {
        if c.closed {
          Panic();
        } else {
          Remove(c);
        }
      } else {
        SetPhase(c, M.Left);
      }
    }

    /** The loop receives from its broadcast channel and starts its walk over the map. */
    method TakeBroadcast()
      requires Valid() && M.Indexed(View()) && M.Enabled(View(), M.Dequeue)
      modifies this`broadcast, this`position, this`log
      ensures Valid() && View() == M.Step(old(View()), M.Dequeue)
    {
      var m := broadcast[0];
      assert Members().Keys == connections.Keys;
      log := log + [m];
      position := M.Delivering(m, connections.Keys);
      broadcast := broadcast[1..];
    }

    /** Sending on, or closing, a closed channel ends the process. */
    method Panic()
      requires Valid()
      modifies this`panicked
      ensures View() == old(View()).(panicked := true)
    {
      panicked := true;
    }

    /** The loop takes a token and turns to peer p. */
    method Spend(p: PeerId)
      requires Valid() && 1 <= throttle && position.Delivering?
      modifies this`throttle, this`position
      ensures Valid() && View() == M.Spend(old(View()), p)
    {
      throttle := throttle - 1;
      position := position.(todo := position.todo - {p});
    }

    /** The select with a default branch: a send that never blocks, or an eviction. */
    method Offer(c: Connection, m: PushMsg)
      requires Valid() && Knows(c)
      modifies this`connections, this`peercnt, this`panicked, repr
      ensures Valid() && View() == M.Offer(old(View()), c.index, m)
    {
      ConnsAt(c);
      hide Conns;
      if c.closed {
        Panic();
      } else if |c.send| < M.SEND_CAP {
        Send(c, m);
      } else {
        Evict(c);
        Delete(c.peerId);
      }
    }

    /** One iteration of the walk over the map. */
    method Deliver(p: PeerId)
      requires Valid() && M.Indexed(View()) && M.Enabled(View(), M.Deliver(p))
      modifies this`connections, this`peercnt, this`throttle, this`position, this`panicked, repr
      ensures Valid() && View() == M.Step(old(View()), M.Deliver(p))
    {
      var c, m := connections[p], position.msg;
      MembersAt(p);
      Spend(p);
      Offer(c, m);
    }

    /** The walk over the map ends. */
    method FinishBroadcast()
      requires Valid() && M.Indexed(View()) && M.Enabled(View(), M.Done)
      modifies this`position
      ensures Valid() && View() == M.Step(old(View()), M.Done)
    {
      position := M.Idle;
    }

    /** The ticker of the rate limiter fires; a full bucket drops the token. */
    method Tick()
      requires Valid() && M.Indexed(View()) && M.Enabled(View(), M.Tick)
      modifies this`throttle
      ensures Valid() && View() == M.Step(old(View()), M.Tick)
    {
      if throttle < M.BURST {
        throttle := throttle + 1;
      }
    }

    /** A broadcaster sends into the room's channel. */
    method Enqueue(m: PushMsg)
      requires Valid() && M.Indexed(View()) && M.Enabled(View(), M.Enqueue(m))
      modifies this`broadcast
      ensures Valid() && View() == M.Step(old(View()), M.Enqueue(m))
    {
      broadcast := broadcast + [m];
    }

    /** A broadcaster looks a peer up and sends into the channel of its connection, if it has one. */
    method SendToPeer(p: PeerId, m: PushMsg)
      requires Valid() && M.Indexed(View()) && M.Enabled(View(), M.PeerSend(p, m))
      modifies this`panicked, repr
      ensures Valid() && View() == M.Step(old(View()), M.PeerSend(p, m))
    {
      if p in connections {
        var c := connections[p];
        if c.closed {
          Panic();
        } else {
          Send(c, m);
        }
      }
    }

    // ---------------------------------------------------------------- steps of the connections' own goroutines

    ghost method Admit(c: Connection)
      requires Valid() && c.index == |born|
      modifies this`born, this`repr
      ensures Valid() && Knows(c) && born == old(born) + [c] && repr == old(repr) + {c}
      ensures View() == old(View()).(conns := old(View()).conns + [c.View()])
    {
      ghost var was := Conns();
      born, repr := born + [c], repr + {c};
      assert Conns() == was + [c.View()];
    }

    /** A websocket connection is opened for a peer of this room. */
    method Open(p: PeerId) returns (c: Connection)
      requires Valid() && M.Indexed(View()) && M.Enabled(View(), M.Open(p))
      modifies this`born, this`repr
      ensures Valid() && fresh(c) && Knows(c) && repr == old(repr) + {c} && c.peerId == p && c.index == |old(born)|
      ensures View() == M.Step(old(View()), M.Open(p))
    {
      OpenStep(View(), p);
      hide M.Step, M.Enabled, M.Indexed, View, Conns;
      c := new Connection(p, |born|);
      Admit(c);
    }

    /** The handler of c counts it in. */
    ghost method CountIn(c: Connection)
      requires Valid() && Knows(c) && M.Indexed(View()) && M.Enabled(View(), M.CountIn(c.index))
      modifies c`phase
      ensures Valid() && View() == M.Step(old(View()), M.CountIn(c.index))
    {
      ConnsAt(c);
      SetPhase(c, M.Active);
    }

    /** The handler of c counts it out. */
    ghost method CountOut(c: Connection)
      requires Valid() && Knows(c) && M.Indexed(View()) && M.Enabled(View(), M.CountOut(c.index))
      modifies c`phase
      ensures Valid() && View() == M.Step(old(View()), M.CountOut(c.index))
    {
      ConnsAt(c);
      SetPhase(c, M.Gone);
    }

    /** The writer of c receives from its channel: a step of the room, and, for a peer message, the step of the
        protocol that takes it. */
    method Take(c: Connection, cfg: R.Config)
      requires Valid() && Knows(c) && c.Valid() && 1 <= c.notifyMu
      requires M.Indexed(View()) && M.Enabled(View(), M.Take(c.index))
      modifies c`send, c`writeMsgQ, c`owned, c`wire, c`notifyMu, c`toStats, c`taken, c`transmitted
      ensures Valid() && c.Valid() && View() == M.Step(old(View()), M.Take(c.index))
      ensures var m := old(c.View()).send[0];
        c.Books() == if m.isBrAll then old(c.Books()) else Q.PutBooks(cfg, old(c.Books()), m.id, m.body)
    {
      ConnsAt(c);
      hide Q.PutBooks, Connection.Books;
      var running := c.OnSend(cfg);
      OnlyConn(c);
    }
  }
}
