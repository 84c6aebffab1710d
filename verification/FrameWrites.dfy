/** The goroutines that write to the websocket of one connection. The library writes one message at a time and ends
    the process when it notices that two writes overlap; whether they can depends on the acknowledgement mode. */
module FrameWrites {

  /** A goroutine on its way through `write`: not there; with the token of the connection's mutex channel in hand;
      inside the library's WriteMessage, and there perhaps putting a frame on the network; back from it, with the
      token still in hand. */
  datatype Writer = Elsewhere | Holding | Writing(flushing: bool) | Written

  /** `isWriting` is the library's own mark, set while a frame is put on the network. */
  datatype Socket = Socket(token: nat, writers: seq<Writer>, isWriting: bool, panicked: bool)

  datatype Event =
    | TakeToken(k: nat)
    | Enter(k: nat)      // calls WriteMessage
    | Flush(k: nat)      // begins to put a frame on the network
    | Flushed(k: nat)
    | Leave(k: nat)      // returns from WriteMessage
    | GiveToken(k: nat)

  /** The connection's own writer always runs; the acknowledger of notify messages is only started when the mode is
      above zero. */
  function WriterCount(mode: int): nat {
    if mode > 0 then 2 else 1
  }

  function Start(mode: int): Socket {
    Socket(1, seq(WriterCount(mode), _ => Elsewhere), false, false)
  }

  /** The token is asked for only when the mode is exactly 1. */
  predicate Enabled(mode: int, s: Socket, e: Event) {
    && !s.panicked && e.k < |s.writers|
    && var w := s.writers[e.k];
       match e
       case TakeToken(_) => mode == 1 && w.Elsewhere? && 1 <= s.token
       case Enter(_) => if mode == 1 then w.Holding? else w.Elsewhere?
       case Flush(_) => w == Writing(false)
       case Flushed(_) => w == Writing(true)
       case Leave(_) => w == Writing(false)
       case GiveToken(_) => w.Written? && s.token < 1
  }

  function Step(mode: int, s: Socket, e: Event): Socket
    requires Enabled(mode, s, e)
  {
    match e
    case TakeToken(k) => s.(writers := s.writers[k := Holding], token := s.token - 1)
    case Enter(k) => s.(writers := s.writers[k := Writing(false)])
    case Flush(k) =>
      if s.isWriting then s.(panicked := true)
      else s.(writers := s.writers[k := Writing(true)], isWriting := true)
    case Flushed(k) =>
      if !s.isWriting then s.(panicked := true)
      else s.(writers := s.writers[k := Writing(false)], isWriting := false)
    case Leave(k) => s.(writers := s.writers[k := if mode == 1 then Written else Elsewhere])
    case GiveToken(k) => s.(writers := s.writers[k := Elsewhere], token := s.token + 1)
  }

  ghost predicate IsRun(mode: int, states: seq<Socket>, events: seq<Event>) {
    && |states| == |events| + 1 && states[0] == Start(mode)
    && forall t :: 0 <= t < |events| ==> Goes(mode, states[t], events[t], states[t + 1])
  }

  predicate Goes(mode: int, s: Socket, e: Event, t: Socket) {
    Enabled(mode, s, e) && t == Step(mode, s, e)
  }

  /** Two calls of WriteMessage are in progress at the same time. */
  predicate Overlap(s: Socket) {
    exists i, j :: 0 <= i < j < |s.writers| && s.writers[i].Writing? && s.writers[j].Writing?
  }

  // ---------------------------------------------------------------- up to mode 1

  /** Everybody else is elsewhere. */
  predicate Alone(s: Socket, k: nat) {
    forall j :: 0 <= j < |s.writers| && j != k ==> s.writers[j].Elsewhere?
  }

  /** At most one goroutine is on its way; with mode 1 it has the token; the library's mark says what it does. */
  ghost predicate WriteInv(mode: int, s: Socket) {
    && !s.panicked && |s.writers| == WriterCount(mode)
    && exists k :: 0 <= k < |s.writers| && Alone(s, k)
         && s.isWriting == (s.writers[k] == Writing(true))
         && (mode == 1 ==> s.token == if s.writers[k].Elsewhere? then 1 else 0)
  }

  lemma StepKeepsWriteInv(mode: int, s: Socket, e: Event)
    requires mode <= 1 && WriteInv(mode, s) && Enabled(mode, s, e)
    ensures WriteInv(mode, Step(mode, s, e))
  {
    assert Alone(Step(mode, s, e), e.k);
  }

  lemma {:induction false} RunInv(mode: int, states: seq<Socket>, events: seq<Event>, t: nat)
    requires mode <= 1 && IsRun(mode, states, events) && t < |states|
    ensures WriteInv(mode, states[t])
  {
    if t == 0 {
      assert Alone(states[0], 0);
    } else {
      RunInv(mode, states, events, t - 1);
      assert Goes(mode, states[t - 1], events[t - 1], states[t]);
      StepKeepsWriteInv(mode, states[t - 1], events[t - 1]);
    }
  }

  // ---------------------------------------------------------------- above mode 1

  /** Both goroutines enter the library, begin a frame, and the library notices. */
  function BothState(i: nat): Socket {
    match i
    case 0 => Socket(1, [Elsewhere, Elsewhere], false, false)
    case 1 => Socket(1, [Writing(false), Elsewhere], false, false)
    case 2 => Socket(1, [Writing(false), Writing(false)], false, false)
    case 3 => Socket(1, [Writing(true), Writing(false)], true, false)
    case _ => Socket(1, [Writing(true), Writing(false)], true, true)
  }

  function BothEvent(i: nat): Event {
    match i
    case 0 => Enter(0)
    case 1 => Enter(1)
    case 2 => Flush(0)
    case _ => Flush(1)
  }

  lemma BothRun(mode: int) returns (states: seq<Socket>, events: seq<Event>)
    requires mode > 1
    ensures IsRun(mode, states, events) && |states| == 5
    ensures Overlap(states[2]) && states[4].panicked
  {
    states := seq(5, i requires 0 <= i < 5 => BothState(i));
    events := seq(4, i requires 0 <= i < 4 => BothEvent(i));
    assert Start(mode).writers == [Elsewhere, Elsewhere];
    var both := states[2];
    assert both.writers[0].Writing? && both.writers[1].Writing?;
  }

  // ---------------------------------------------------------------- exactly up to mode 1

  ghost predicate NeverOverlaps(mode: int) {
    forall states: seq<Socket>, events: seq<Event>, t: nat | IsRun(mode, states, events) && t < |states| :: !Overlap(states[t])
  }

  ghost predicate NeverPanics(mode: int) {
    forall states: seq<Socket>, events: seq<Event>, t: nat | IsRun(mode, states, events) && t < |states| :: !states[t].panicked
  }

  /** No run has two writes in progress together if and only if the mode is at most 1: below 1 there is only one
      writer, with mode 1 the two take turns with the token, and above 1 nothing keeps them apart. Exactly then, too,
      the library never ends the process over it. */
  lemma WritesNeverOverlap(mode: int)
    ensures NeverOverlaps(mode) <==> mode <= 1
    ensures NeverPanics(mode) <==> mode <= 1
  {
    if mode <= 1 {
      forall states: seq<Socket>, events: seq<Event>, t: nat | IsRun(mode, states, events) && t < |states|
        ensures !Overlap(states[t]) && !states[t].panicked
      {
        RunInv(mode, states, events, t);
      }
    } else {
      var states, events := BothRun(mode);
      assert Overlap(states[2]) && states[4].panicked;
    }
  }

  /** With mode 1, in every run: a goroutine inside the library has the only token, and every other one is out of
      the critical section. */
  lemma TokenKeepsOthersOut(states: seq<Socket>, events: seq<Event>, t: nat, i: nat)
    requires IsRun(1, states, events) && t < |states| && i < |states[t].writers| && !states[t].writers[i].Elsewhere?
    ensures states[t].token == 0 && Alone(states[t], i)
  {
    RunInv(1, states, events, t);
  }
}
