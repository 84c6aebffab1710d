# A verified model of the push server and its two script libraries

The project models three parts of the repository in Dafny and proves what they promise.

**The push hub (`server/hub.go`, the peer side in `client/wsbk.go`).** Broadcasters number messages under a mutex made
of a one-token channel and put them into the channels of rooms or of single connections. Every room has a loop that
owns a map of connections, a bounded channel of broadcasts and a rate limiter. Every connection has a writer that
keeps a table of unacknowledged messages with two countdowns, and a reader that hands acknowledgements to the writer
and to the statistics goroutine. The model is built in two layers.

* Pure state machines, whose steps are the atomic steps of the goroutines: one room (`RoomModel.dfy`, `RoomLife.dfy`),
  the whole hub with any number of rooms and broadcasters (`HubSystem.dfy`), when its broadcasters block and what their
  calls reach (`HubProgress.dfy`, `BroadcastReach.dfy`, `CallReach.dfy`), the retransmission table of one writer
  (`Retransmission.dfy`), the reliable-delivery protocol of one connection with its client over a network that loses and
  reorders frames (`Reliability.dfy`, `LinkInvariants.dfy`, `LinkTicks.dfy`), the whole server, which is the hub and that
  protocol for every connection (`Delivery.dfy`, `DeliveryInvariants.dfy`, `DeliveryTheorems.dfy`), and the goroutines that write to one
  socket (`FrameWrites.dfy`). A run is any interleaving of enabled steps; the theorems hold for every run, every number of
  rooms, peers and broadcasters, and every hash function. In the whole server a writer takes what the hub put into its
  channel, and a statistics record exists when the hub has made it; both are steps that the two machines take together.
  History that the code does not keep (the log of a room, what was ever put into a channel, every transmission) is
  carried in extra fields of the state.
* Classes with the code's own mutable fields (`Connection.dfy`, `Hub.dfy`, `HubRooms.dfy`). Every method of the last two
  is one step of a goroutine, and its contract says that the view of the object afterwards is the hub model's step applied
  to the view before, so the theorems about runs of the hub are theorems about sequences of these calls. The writer's
  methods have a second view, `Books`: taking a message, an acknowledgement and one iteration of the tick loop move it as
  the protocol steps `Take`, `HandAck` and `TickVisit` move the books of a link, and a whole tick as the sequence of these
  visits in the order of the loop (`LinkInvariants.SweepIsSteps`). The reader and the client have no class.

**The Less docstring parser (`bs-lessdoc-parser.js`).** `LessDoc.dfy` says what tree the parser builds;
`LessDocParser.dfy` is the tokenizer with its one token of pushback and the recursive-descent parser as classes;
`LessDocLanguage.dfy` and `LessDocGrammar.dfy` characterise the accepted input in two independent ways, once by what may
follow what and once by a regular expression; `LessDocRoundTrip.dfy` says which tokens the tree keeps and that the parser
and the writing back are inverse to each other; `LessDocOutline.dfy` reads the sections and subsections of a file off its
tokens in one scan.

**The MD5 script (`md5.js`).** `Md5Rounds.dfy` and `Md5Padding.dfy` hold sections 3.1 to 3.5 of RFC 1321: the padded
message, the table of constants, the 64 operations. `Md5.dfy` is the script: 64 unrolled steps on four registers in
place, and a loop that feeds blocks without ever building the padded message. `Bits.dfy` ties words of 32 bits to the
numbers that they stand for, and `Md5Arithmetic.dfy` has the two definitions of 32-bit addition on JavaScript numbers.
`Md5SelfTest.dfy` works out the script's own test message.

## Hypotheses

* `max_wait_ttl >= 1` and `max_retry_ttl >= 1`, fixed after start-up (`Retransmission.Config.Valid`); line 307 divides by
  the second.
* `enable_ack_rto == 1` for everything about acknowledgements. `FrameWrites.WritesNeverOverlap` says which of its values
  keep the writes to a socket apart.
* Message ids are below 2^32 where frames are concerned; `Codec.PushRoundTrip` says that an id survives exactly then. For
  the theorems of `DeliveryTheorems` that is: fewer than 2^32 messages were numbered so far.
* The consistent hash is an arbitrary function from peer ids to room numbers; steps that need the room of a peer require
  that it exists, and `HubProgress.BlockedExactly` that it always does.
* `broadcast_peers` is called without a connection of its own (its only caller does so), and looking a peer up and
  sending into its channel is one step.
* Updates of the counters in `stats` are atomic; so is every single channel operation.
* A client answers a frame addressed to it at most once, with the number that the frame carried.
* Only for `HubLifecycle.OrderlyLifecycle`: a peer id is registered again only after the unregistration of its previous
  connection was handled. `HubLifecycle.LifecycleExactly` says for every run what depends on the reuse of ids.
* Only for `OnceOnly.NoPeerMessageTwice`, `DeliveryTheorems.ReliableDelivery` and `DeliveryTheorems.LeavingIsFinal`: no call
  names a peer twice.

## What turned out false

* A registered connection that was not evicted need not be in its room's map, and then its own unregistration may never
  close its channel. The maps are exact in every state of a run up to some point if and only if no registration up to there
  found its peer id in the map (`HubLifecycle.LifecycleExactly`); a registration that does strands a connection at once
  (`RoomLife.ReplacedIsStranded`), and `IdReuse.EarlyReuseStrands` has such a run to its end.
* Two writes to one websocket can be in progress together, which the library answers by ending the process. No run does
  this if and only if `enable_ack_rto` is at most 1 (`FrameWrites.WritesNeverOverlap`).
* A room's counter of peers is not the size of its map when an id is registered twice; it is off by exactly the number
  of replaced entries (`HubLifecycle.PeerCounter`).
* The room loop can close a channel twice, which ends the process. This happens exactly when it unregisters a connection
  that it had evicted before, while another connection holds the same id (`RoomLife.PanicExactly`,
  `HubLifecycle.PanicInRun`); `IdReuse.EarlyReuseClosesTwice` has a run that gets there.
* The list of online peers is empty when the ids in it take less than 32 characters together
  (`ShardedHub.HubRooms.PeersIsOnline`).
* The MD5 padding has no high-order word of the length, so it is the one of the standard exactly for messages shorter than
  2^29 bytes (`Md5.PaddedExactly`).
* The parser drops a variable docstring without a variable and an empty subsection heading, and nothing else
  (`LessDocRoundTrip.LosslessExactly`).

## Model

| member | source | states |
|---|---|---|
| Codec.HeaderBijection | server/hub.go:58-72 | the header byte and the triple of version, kind and flag determine each other |
| Codec.BigEndianRoundTrip | server/hub.go:57 | reading back a number below 2^32 gives that number |
| Codec.BigEndianIsOnto | server/hub.go:170 | every four bytes are the encoding of what is read from them |
| Codec.PutUint32 | server/hub.go:73 | writes four bytes in place and leaves the rest of the buffer alone |
| Codec.EncodePush | server/hub.go:54-81 | the buffer filled in place is the push frame, byte for byte |
| Codec.EncodeServerAck | server/hub.go:83-94 | the buffer filled in place is the server's acknowledgement frame |
| Codec.EncodeClientAck | client/wsbk.go:42-54 | the buffer filled in place is the client's acknowledgement frame |
| Codec.EncodeNotify | client/wsbk.go:56-73 | the buffer filled in place is the notify frame |
| Codec.PushRoundTrip | client/wsbk.go:146-174 | the client decodes every push frame without leaving the slice; it recovers id, version, kind, flag, length and payload, and answers exactly the peer-addressed ones, with their id; id and length survive if and only if they fit 32 bits |
| Codec.AckRoundTrip | server/hub.go:168-185 | acknowledgements of both sides are decoded to the id they carry, and the client does not answer one |
| Codec.NotifyRoundTrip | server/hub.go:187-207 | the server decodes the client's notify frame, with or without its verbose log |
| Codec.FrameLayout | server/hub.go:54-94 | the five frames byte by byte, in plain numbers: big-endian id and length, the header bytes 0x11, 0x13, 0x17, 0x16 and 0x14, the payload behind them |
| Codec.DecodersFailExactly | server/hub.go:168-207 | the receiving loops of both sides run out of the slice exactly in the stated cases, by length, capacity and header byte |
| Retransmission.FreshIsSound | server/hub.go:268-269 | a new entry satisfies the invariant that ties the two countdowns together |
| Retransmission.AgedIsSound | server/hub.go:294-320 | a tick keeps the invariant; a message is sent again only at one exact value of its countdown |
| Retransmission.StrideExactly | server/hub.go:307 | the stride of the code is that number S; it is 0 exactly if W < R, and 1 exactly if R <= W < 2 * R |
| Retransmission.PendingState | server/hub.go:294-320 | the state of an unacknowledged message after any number of ticks |
| Retransmission.ExactSchedule | server/hub.go:294-320 | for the whole number S with R * S <= W < R * (S + 1): dropped at tick W and no other; never sent again if S = 0, else first at tick W - (R - 1) * S + 1, which lies from S + 1 to S + R, and then every S ticks, R - 1 times in all |
| Retransmission.ResendMeetsDrop | server/hub.go:294-320 | a message is sent again and dropped in the same tick for some tick if and only if 2 <= R <= W < 2 * R |
| Retransmission.ResendTotal | server/hub.go:294-320 | over its whole life a message is sent again exactly R - 1 times, or never if W < R |
| Retransmission.SweepIsOrderFree | server/hub.go:294-320 | the loop over the map, deleting as it goes, does the same for every visiting order: the pointwise new table, and each due message sent once |
| Retransmission.TableAgesPointwise | server/hub.go:294-320 | in the table every message ages as it would alone |
| Retransmission.TableDrains | server/hub.go:294-320 | without new messages the table is empty after W ticks |
| Connections.Connection.constructor | server/skytime.go:152-160 | a new connection has an open empty channel, an empty table and the token in the mutex channel of its socket |
| Connections.Connection.OnSend | server/hub.go:243-274 | the writer puts the right frame on the wire, enters a peer message with both countdowns at their configured values and reports its id; a broadcast is not entered; when the channel is closed and drained it writes the close frame and ends |
| Connections.Connection.OnAck | server/hub.go:285-292 | an acknowledged entry, and no other, leaves the table and is acknowledged; an unknown acknowledgement changes nothing |
| Connections.Connection.Visit | server/hub.go:295-319 | one iteration of the tick loop, over the two countdowns and W and R alone: counted down, dropped at the last tick, sent again and reported exactly below (retry - 1) * S |
| Connections.Connection.OnTick | server/hub.go:294-320 | the loop over the mutable map refines the order-free tick of the whole table; each due message is sent and reported once |
| RoomModel.StepKeepsRoom | server/hub.go:439-545 | every step of every goroutine that touches a room keeps its invariant |
| RoomLife.PanicExactly | server/hub.go:490-528 | a step touches a closed channel if and only if it unregisters an evicted connection whose id is in the map again |
| RoomLife.StepKeepsLife | server/hub.go:458-528 | every step that does not register an id found in the map keeps, however ids are reused: registered and not evicted means in the map and open, unregistered means closed |
| RoomLife.ReplacedIsStranded | server/hub.go:459-460 | a registration that finds its id in the map leaves the connection that had it registered, not evicted and in no map |
| RoomLife.StepKeepsSole | server/hub.go:458-528 | with orderly reuse of ids no step touches a closed channel and no two registered connections share an id |
| RoomLife.StepMovesCounts | server/hub.go:458-528 | every step moves the peer counter as it moves the number of registered connections with an open channel, and the handlers' count as it says |
| HubSystem.StepKeepsInv | server/hub.go:786-906 | every step of every goroutine keeps the invariant of the whole hub |
| HubSystem.AtMostOneInside | server/hub.go:800-819 | a broadcaster inside its critical section has the only token, and no other one is inside |
| HubTheorems.OrderedBroadcast | server/hub.go:786-906 | in every run every connection is handed room messages in the order of their ids, and so, separately, the messages addressed to it, each unchanged |
| HubTheorems.SameOrderEverywhere | server/hub.go:786-906 | in every run any two connections in any rooms see the broadcasts they have in common in the same order |
| HubTheorems.GapFree | server/hub.go:517-528 | in every run what a connection accepted from its room is one contiguous slice of the room's log from its registration to its leaving the map; the channel holds the untaken end of it and never more than its capacity |
| BroadcastReach.BroadcastReachesRooms | server/hub.go:800-819 | in every run, once a broadcaster is through its loop, every room has received its message, which has the body of the call, or has it in its channel exactly as often as the call named the room, and that never changes again |
| BroadcastReach.PeerSendReaches | server/hub.go:884-897 | a message to a peer goes to the end of the channel of the one connection that the flat map has for it, which is open; for a peer that is not online no room changes |
| CallReach.CallServesEveryPeer | server/hub.go:867-906 | in every run a call to peers that is through its loop has made one send for every peer of its list, in order and no other, all of its one message; each peer that was online at its send has the message in the history of its connection from then on |
| HubProgress.BlockedExactly | server/hub.go:800-897 | in every run a broadcaster cannot go on if and only if it has finished, or another one is inside the critical section, or the room it sends to holds 4096 broadcasts, or the connection it sends to holds 4096 messages |
| HubTheorems.MutexAndIds | server/hub.go:800-819 | in every run the token is in the channel or with one broadcaster; ids are 1, 2, .. without a gap; when the token is in the channel exactly these ids have statistics, and the total size is the sum of all bodies |
| HubTheorems.RateLimit | server/hub.go:441-454 | in every window of every run the delivery attempts of a room are at most its tokens at the start, never above 10000, plus the ticks in the window |
| HubTheorems.TokenBucket | server/hub.go:441-454 | over every window of every run, tokens at the end plus deliveries are tokens at the start plus the ticks that found fewer than 10000 tokens |
| HubTheorems.DeliversExactly | server/hub.go:520-527 | in every run a delivery appends to a channel that holds fewer than 4096 messages, and evicts the connection exactly when it holds 4096 |
| HubTheorems.EvictedWasFull | server/hub.go:520-527 | an evicted connection had accepted at least 4096 messages, and exactly 4096 if its writer took none |
| HubLifecycle.PeerCounter | server/hub.go:458-528 | in every run the peer counter of a room is the number of its connections that registered and whose channel is open; it is the size of the map plus the number of replaced entries, and so the size of the map if and only if there are none |
| HubLifecycle.PanicInRun | server/hub.go:490-528 | in every run the next step of any goroutine ends the process if and only if it unregisters an evicted connection whose id is in the map again; no send to a room or to a peer ever does |
| HubLifecycle.LifecycleExactly | server/hub.go:458-528 | in every run: up to a point the maps hold exactly the connections registered and not evicted, all open, and the unregistered ones are closed, if and only if no registration up to there found its id in the map |
| HubLifecycle.OrderlyLifecycle | server/hub.go:458-528 | in every run with orderly reuse of ids the maps are exact in that sense, nothing touches a closed channel, and the peer counter is the size of the map |
| HubLifecycle.TotalPeerCounter | server/hub.go:715-745 | in every state of every run the total counter is the sum of the room counters, plus the connections closed and not counted out yet, minus those open and not counted in, or counted out already |
| HubLifecycle.TotalCountsEvicted | server/hub.go:715-745 | as long as no registration found its id in the map, and while no handler is between its two updates, the total is the sum of the room counters plus the evicted connections not yet unregistered |
| IdReuse.EarlyReuseStrands | server/hub.go:490-495 | a run that registers an id found in the map, leaves a registered connection in no map and later never closes its channel |
| IdReuse.EarlyReuseClosesTwice | server/hub.go:490-528 | a run without any replaced entry that closes a channel twice |
| FlatIndex.LookupIsFlat | server/hub.go:941-948 | looking a peer up in the room of its hash is looking it up in one flat map |
| FlatIndex.StepOnFlat | server/hub.go:699-745 | every step of the hub is one operation on the flat map: put, remove or nothing |
| FlatIndex.FlatSize | server/hub.go:933-939 | the flat map has as many entries as all rooms together |
| FlatIndex.BroadcastReachesFlat | server/hub.go:811-813 | the loop over all rooms, in any order, comes to the room of each entry of the flat map exactly once |
| FlatIndex.RoomServesItsShare | server/hub.go:517-528 | a room that takes a broadcast sets out to serve exactly its share of the flat map |
| OnceOnly.NoPeerMessageTwice | server/hub.go:884-897 | in every run whose calls name no peer twice, the ids addressed to a connection go strictly up |
| Hubs.Hub.constructor | server/hub.go:427-437 | a new room is the empty room of the model |
| Hubs.Hub.Register | server/hub.go:458-460 | refines the registration step |
| Hubs.Hub.Unregister | server/hub.go:490-497 | refines the unregistration step, including the close of a closed channel |
| Hubs.Hub.TakeBroadcast | server/hub.go:517-518 | refines the receive from the broadcast channel |
| Hubs.Hub.Deliver | server/hub.go:520-527 | refines one iteration of the delivery loop: token, send or eviction |
| Hubs.Hub.Offer | server/hub.go:521-527 | the select with a default branch sends, or closes, deletes and counts down |
| Hubs.Hub.FinishBroadcast | server/hub.go:517-528 | refines the end of the delivery loop |
| Hubs.Hub.Tick | server/hub.go:447-454 | refines the ticker; a full bucket drops the token |
| Hubs.Hub.Enqueue | server/hub.go:812 | refines a send into the room's channel |
| Hubs.Hub.SendToPeer | server/hub.go:890-894 | refines the lookup and the send to one connection |
| Hubs.Hub.Open | server/skytime.go:152-160 | refines the opening of a connection |
| Hubs.Hub.Take | server/hub.go:243-274 | the writer's receive is the model's step on the room, and enters a peer message into the books as the protocol does |
| ShardedHub.HubRooms.constructor | server/hub.go:615-645 | the number of rooms is brought between its limits; the hub starts as the model does, with the token in the mutex channel |
| ShardedHub.HubRooms.Acquire | server/hub.go:800 | refines taking the token |
| ShardedHub.HubRooms.Number | server/hub.go:802-804 | refines numbering the message |
| ShardedHub.HubRooms.Record | server/hub.go:806-808 | refines recording the message; its counters start at zero and no other message's change |
| ShardedHub.HubRooms.RoomSend | server/hub.go:844-848 | refines one iteration of the loops over rooms; unknown room ids are skipped |
| ShardedHub.HubRooms.PeerSend | server/hub.go:887-893 | refines one iteration of the loop over peers, for a call without a connection of its own |
| ShardedHub.HubRooms.AddSize | server/hub.go:815-817 | refines the update of the total size |
| ShardedHub.HubRooms.Release | server/hub.go:819 | refines putting the token back |
| ShardedHub.HubRooms.Open | server/skytime.go:152-160 | refines opening a connection in the room of its hash |
| ShardedHub.HubRooms.Register | server/hub.go:715-718 | refines the two steps of a registration: the room, then the total |
| ShardedHub.HubRooms.Unregister | server/hub.go:740-745 | refines the two steps of an unregistration, unless the first ends the process |
| ShardedHub.HubRooms.RunRoom | server/hub.go:439-545 | a step of a room's loop is that step of the whole hub |
| ShardedHub.HubRooms.Take | server/hub.go:243-274 | the receive of a connection's writer is that step of the whole hub |
| ShardedHub.HubRooms.PeerIsOnline | server/hub.go:950-962 | true exactly for the peers of the flat map |
| ShardedHub.HubRooms.GetConnectionByPeerId | server/hub.go:941-948 | the connection that the flat map has for the peer, or null |
| ShardedHub.HubRooms.PeersIsOnline | server/hub.go:964-984 | the online peers of the list in order, comma-separated, if that takes at least 32 characters, else nothing |
| ShardedHub.AmongInOrder | server/hub.go:964-984 | the online peers of a list come in the order of the list |
| ShardedHub.JoinedInOrder | server/hub.go:964-984 | there is one comma between any two of them |
| ShardedHub.HubRooms.CountSend | server/hub.go:676-681 | one more send for a recorded id, no change for any other |
| ShardedHub.HubRooms.CountAck | server/hub.go:684-689 | one more acknowledgement for a recorded id, no change for any other |
| FrameWrites.WritesNeverOverlap | server/hub.go:213-227 | no run has two writes to one socket in progress together, and none ends the process over it, if and only if the mode is at most 1 |
| FrameWrites.TokenKeepsOthersOut | server/hub.go:213-227 | with mode 1, in every run, a goroutine inside `write` has the only token and no other one is inside |
| Reliability.StepKeepsFlow | server/hub.go:140-320 | every step keeps account of every frame: written ones are under way, read or lost; answers are under way, read or lost; what was read is handed over and reported |
| Reliability.AnswerGoesBack | client/wsbk.go:146-174 | an answered peer message puts exactly its acknowledgement on the way back, a broadcast nothing |
| Reliability.AckReachesReader | server/hub.go:168-185 | what the reader reads is an acknowledgement, and its id is what it hands to the writer |
| LinkInvariants.StepKeepsConserved | server/hub.go:243-320 | every step of a connection keeps: what the writer took is pending, acknowledged or expired, one of the three, and transmitted as often as its countdowns say; acknowledged are exactly those whose acknowledgement came before they expired |
| LinkInvariants.AckSettles | server/hub.go:285-292 | a pending message whose acknowledgement is handed over is out of the table and acknowledged, every other entry as it was; for another id nothing changes |
| LinkInvariants.SweepIsSteps | server/hub.go:294-320 | the visits of one tick, one protocol step after the other, leave the books that the writer's loop leaves |
| LinkTicks.TickIsWhole | server/hub.go:294-320 | however reader, client, statistics and network interleave with it, a tick visits every entry that it found exactly once, and leaves the order-free table |
| Delivery.HubInside | server/skytime.go:152-168 | inside every run of the whole server there is a run of the hub that ends in the same hub, so every theorem about the hub holds there |
| DeliveryInvariants.StepKeepsAddressed | server/hub.go:884-897 | every step keeps: what was ever addressed to a connection has its statistics record, and a message gets its record once, before it is sent to any peer |
| DeliveryInvariants.NextIsFresh | server/hub.go:243-274 | when no call names a peer twice, the peer message at the head of a channel is new to the writer's books |
| DeliveryTheorems.AcksNeverOvertakeSends | server/hub.go:671-693 | in every run of the whole server, for every message, the acknowledgements counted are at most the sends counted |
| DeliveryTheorems.ReliableDelivery | server/hub.go:243-320 | in every run whose calls name no peer twice, each message that the hub addressed to a connection is in exactly one of four places: its channel, pending, acknowledged, expired; one whose acknowledgement was handed over is acknowledged or had expired, and an acknowledged one was received by the client and its acknowledgement handed over; once taken it was sent at least once and at most R times, and an expired one exactly R times, or once if W < R |
| DeliveryTheorems.LeavingIsFinal | server/hub.go:285-320 | in every such run a message that was acknowledged or expired is never sent again and never changes back |
| LessDocParser.Tokenizer.Unshift | static/bower_components/bootstrap/grunt/bs-lessdoc-parser.js:84-89 | pushes back one token, and throws if one is pushed back already |
| LessDocParser.Tokenizer.ShiftLine | static/bower_components/bootstrap/grunt/bs-lessdoc-parser.js:91-131 | the token pushed back, else the next line, which may be ignored, else the end of the file; remaining lines plus the token pushed back go down |
| LessDocParser.Tokenizer.Shift | static/bower_components/bootstrap/grunt/bs-lessdoc-parser.js:133-141 | the next token that is not ignored, and terminates |
| LessDocParser.TokensOfSum | static/bower_components/bootstrap/grunt/bs-lessdoc-parser.js:91-141 | the tokens come in the order of the lines, one for each line that is not ignored |
| LessDocParser.Parser.ParseVar | static/bower_components/bootstrap/grunt/bs-lessdoc-parser.js:221-234 | reads a variable with its docstring, swallows a docstring without a variable, and never pushes back twice |
| LessDocParser.Parser.ParseVars | static/bower_components/bootstrap/grunt/bs-lessdoc-parser.js:211-219 | adds all variables that follow |
| LessDocParser.Parser.ParseSubSection | static/bower_components/bootstrap/grunt/bs-lessdoc-parser.js:201-209 | a subsection with a heading, or nothing read |
| LessDocParser.Parser.ParseSubSections | static/bower_components/bootstrap/grunt/bs-lessdoc-parser.js:180-199 | all subsections, with the implicit first one and without a lone empty one; when a section or the end follows, their headings and sizes are those that one scan over the tokens finds; terminates |
| LessDocParser.Parser.ParseSection | static/bower_components/bootstrap/grunt/bs-lessdoc-parser.js:161-178 | one section, the end of the file, or the error with the offending token |
| LessDocParser.Parser.ParseFile | static/bower_components/bootstrap/grunt/bs-lessdoc-parser.js:147-159 | the tree, or the error; never "unparsed section remains" and never "unshift twice", for any lines; succeeds exactly on well-formed input, and then with the sections and subsections that the scan finds |
| LessDocLanguage.GoodPrefixIsLongest | static/bower_components/bootstrap/grunt/bs-lessdoc-parser.js:147-234 | the longest well-formed prefix of a file |
| LessDocLanguage.FileStopsAtFirstError | static/bower_components/bootstrap/grunt/bs-lessdoc-parser.js:161-168 | a file is refused with the first token that goes wrong |
| LessDocLanguage.AcceptsExactly | static/bower_components/bootstrap/grunt/bs-lessdoc-parser.js:147-234 | accepted if and only if well formed; else the only error is "expected section heading", with a token that is the first to leave every well-formed file |
| LessDocGrammar.AcceptsTheGrammar | static/bower_components/bootstrap/grunt/bs-lessdoc-parser.js:147-234 | accepted if and only if the kinds of the tokens match (S D? (d? V)* d? (U (d? V)* d?)*)* |
| LessDocOutline.OutlineExactly | static/bower_components/bootstrap/grunt/bs-lessdoc-parser.js:180-199 | in an accepted file every section has one subsection for each subsection heading, in order and with the number of variables up to the next heading, and before them one without a heading unless it starts with a subsection heading; a lone one without heading and variables is none |
| LessDocRoundTrip.Lossless | static/bower_components/bootstrap/grunt/bs-lessdoc-parser.js:147-234 | the tree of an accepted file holds all its tokens in order, except dangling variable docstrings and empty subsection headings |
| LessDocRoundTrip.LosslessExactly | static/bower_components/bootstrap/grunt/bs-lessdoc-parser.js:147-234 | an accepted file comes back unchanged if and only if it has neither |
| LessDocRoundTrip.ReadsBack | static/bower_components/bootstrap/grunt/bs-lessdoc-parser.js:180-199 | every normal tree is what the parser makes of its own tokens, including the implicit first subsection |
| LessDocRoundTrip.ParsedIsNormal | static/bower_components/bootstrap/grunt/bs-lessdoc-parser.js:180-199 | a file that loses nothing is read into a normal tree, which is written back as that file |
| Md5Arithmetic.AddsAgree | static/scripts/md5.js:1 | both definitions of add32, with their masks, shifts and the bitwise or taken on the 32 bits of the operands, are addition modulo 2^32 for all numbers, in the range of 32-bit signed numbers |
| Md5Arithmetic.AddIsAdd32 | static/scripts/md5.js:1 | add32 of the numbers of two words is the number of the sum of the words |
| Md5Rounds.CmnIsStep | static/scripts/md5.js:1 | the common step is the step of RFC 1321, with a true rotation to the left; its additions are those of `AddIsAdd32` |
| Md5Rounds.StepIsOperation | static/scripts/md5.js:1 | each of the four step functions, with the word, shift and constant of operation i, is operation i of section 3.4 |
| Md5Rounds.QuadIsFour | static/scripts/md5.js:1 | four steps without exchanging registers are four operations with registers changing roles |
| Md5Rounds.Constants0 | static/scripts/md5.js:1 | the sixteen constants of the first round stand for the table entries |
| Md5Rounds.Constants1 | static/scripts/md5.js:1 | the same for the second round |
| Md5Rounds.Constants2 | static/scripts/md5.js:1 | the same for the third round |
| Md5Rounds.Constants3 | static/scripts/md5.js:1 | the same for the fourth round |
| Md5.Round1 | static/scripts/md5.js:1 | the first sixteen unrolled steps are the first sixteen operations |
| Md5.Round2 | static/scripts/md5.js:1 | the next sixteen |
| Md5.Round3 | static/scripts/md5.js:1 | the next sixteen |
| Md5.Round4 | static/scripts/md5.js:1 | the last sixteen |
| Md5.Md5Cycle | static/scripts/md5.js:1 | the unrolled cycle on the registers in place is the table-driven processing of one block |
| Md5.Md5Block | static/scripts/md5.js:1 | adding up shifted character codes gives the sixteen little-endian words |
| Md5.PutByte | static/scripts/md5.js:1 | or-ing a shifted character code into a word fills in that byte of the block |
| Md5.FillTail | static/scripts/md5.js:1 | the rest of the message, a one bit and zeros |
| Md5.Md5Tail | static/scripts/md5.js:1 | the one or two last blocks, for a rest of at most 55 bytes or of more |
| Md5.Md51 | static/scripts/md5.js:1 | the streamed loop computes the digest of the padded message, for every string of character codes up to 255 |
| Md5.PaddedExactly | static/scripts/md5.js:1 | the blocks are those of sections 3.1 and 3.2 if and only if the message is shorter than 2^29 bytes, and then the registers are those of the standard |
| Md5.Rhex | static/scripts/md5.js:1 | a word is put out as eight hexadecimal digits, low-order byte first; reading them back gives its bytes |
| Md5.HexDigitCodes | static/scripts/md5.js:1 | the digits 0 to 9 have the codes from that of '0' on, 10 to 15 from that of 'a' on |
| Md5.HexReadsBack | static/scripts/md5.js:1 | bytes put out in hexadecimal read back as the same bytes |
| Md5.Md5Hex | static/scripts/md5.js:1 | the whole function, on character codes up to 255: below 2^29 bytes, 32 hexadecimal digits that read back as the bytes of the four registers of the digest of RFC 1321 |
| Md5SelfTest.SelfTest | static/scripts/md5.js:1 | the digest of "hello", worked out through all 64 operations, is the string with which the script compares its own |

## Left out

- The websocket, HTTP and telnet layers, configuration, logging, pid files and signals: a frame is what is handed to the socket, and a step happens when its goroutine takes it.
- Ping, pong and write deadlines, and real time: ticks are steps that may come at any moment.
- A failing socket: it is a network that loses every later frame, which the protocol model allows.
- Loops over channels are taken apart into steps, because other goroutines act between two iterations; the loop of a writer over its own table and the loop over the ids of a query stay loops.
- Data races on the maps, on `peercnt` and on the counters: each access is atomic.
- The internals of the consistent hash and of the websocket library.
- `total_consume_time`, which only measures time.
- The broadcast queue in front of the broadcaster: a broadcaster is an event that may start at any moment, with any body.
- The queue of notify messages and the contents of the server's acknowledgements to the client beyond their frame: they never touch the retransmission table.
- The writer and reader without retransmission (`writePump`, `readPump`), the providers, `server/zknode.go`, `server/ipfilter.go` and the handlers in `server/apis.go`.
- Commented-out code (`sconns`, `refresh_peer_id`).
- LessDocParser.Tokenizer.ShiftLine: a line arrives with its kind; the regular expressions at the cited lines that find the kind are not modelled.
- ShardedHub.HubRooms.PeerSend: the branch for a call with a connection of its own is not modelled, since the only caller passes none.
- The channel `recv_ack_seq` is unbuffered and holds nothing between steps: handing an acknowledgement over is one step of reader and writer.
- The regular expressions that classify a line, Markdown rendering, and the ids made from headings: the tokenizer starts from classified lines with trimmed headings.
- Section, subsection and variable nodes of the parser are values; the code pushes into objects that nobody else holds.
- Md5.Md51: strings with character codes above 255 are not modelled; the script adds and ors such codes into neighbouring bytes, which is the digest of nothing.
- Md5.Md5Hex: the same strings are left out.
- JavaScript numbers above 2^53.
- The round-constant table is given by its values; that they come from the sine is not proved.
- `md5` is proved for the result of the first definition of `add32`; that the script compares one digest to choose between the two is not modelled, since they agree (`Md5Arithmetic.AddsAgree`) and the comparison succeeds (`Md5SelfTest.SelfTest`).
