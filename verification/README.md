# auth-vpn: a model of the data and access plane

auth-vpn is a small VPN server and client. A client authenticates with a token
over TLS and then works in one of two modes: *proxy mode*, where many TCP streams
share one framed connection, or *tunnel mode*, where IP packets go to and from a
TUN device. This project models the code on that path and proves what it
promises, for every input and every interleaving of the goroutines involved.

| files | part of the program |
|---|---|
| `Bytes`, `Frames` | the length-prefixed frames everything travels in |
| `ProxyWire` | proxy frames and the two lookup tables, as the classes that hold them |
| `ProxySystem` | proxy mode as a transition system of handlers, read loop, frame loop and target readers |
| `ProxyStream`, `ProxyIsolation`, `ProxySafety` | the invariant of one stream, why streams do not mix, why every step keeps it |
| `ProxyTheorems` | proxy mode's guarantees |
| `ProxyLoops`, `ProxyAnswers` | what a Disconnect ends and a Ping gets; why no dial and no result is left unanswered |
| `ProxyBanner`, `ProxyClosing`, `ProxyHangUp` | a run that loses bytes; why no target connection is forgotten; when a local one is |
| `ProxyTransfer` | who serves goes on serving; runs that bring any data across |
| `ProxyTables` | the classes of `ProxyWire` going through a run of `ProxySystem` |
| `Dotted`, `Registry` | dotted-quad strings, the tunnel address pool |
| `TunSwitch` | the routing loop and the two loops of a tunnel client, as methods on the heap |
| `TunSystem`, `TunSafety`, `TunTheorems` | tunnel mode as a transition system, its invariant, its guarantees |
| `TunTransfer` | runs that bring any packets across |
| `RateLimit`, `Tokens`, `FrontDoor`, `Strikes` | who is let in, and how often an address may fail |
| `Packets`, `Acl`, `Expose`, `Routes` | what is let through, and which routes are pushed and kept |

Each object that the source updates in place is a class whose methods are proved
against functions on values; runs are sequences of those functions, and the
theorems are about all runs. In the two transition systems every section under a
mutex, every frame write, every queue operation and every atomic counter update
is a step of its own. One step takes a tunnel client's packet from the connection,
through the check, to the TUN device; another is the routing loop's look-up,
decisions and send. Sockets, clocks, DNS
answers, file contents and random tokens are parameters.

Where the code and its documentation differ, the model follows the code:

- A frame cut right behind its four length bytes is reported as a plain end of
  stream, as if it had ended between frames (`Frames.CutResult`): the second
  read asks for the content and finds nothing (`internal/tunnel/frame.go:45-48`).
- The client closes a local connection when the target's Close arrives
  (`internal/client/proxy.go:147-158`), but only if the handler has registered by
  then. A target that accepts and hangs up at once can be read off the connection
  before that; its Close is then ignored and the local connection stays open
  (`ProxyHangUp.CloseIsMissed`). `ProxyHangUp.CloseIsHeededExactly` is the exact
  condition. In the same gap the first bytes of a target that speaks first are
  lost (`ProxyBanner.BannerIsLost`, `ProxyTheorems.StartsAtFirstByteExactly`).
- `README.md:264` promises a ban after five failed logins in a minute. That is
  not so for three reasons, each with a run that shows it:
  - a connection past the ban check still gets its token checked and its failure
    recorded, so with k of one address inside at once there can be 4 + k failures
    (`Strikes.BoundIsReached`);
  - the SSH server records failures with the same limiter but never asks whether
    an address is banned (`internal/server/sshsrv.go:37-72`), so refused SSH
    logins have no bound at all (`Strikes.RefusalsUnbounded`);
  - a recognised SSH key resets the limiter without a token, so it opens the front
    door again (`Strikes.KeysReopen`).

  What holds is a bound of 4 + k front-door failures a minute between two resets,
  whatever fails over SSH (`Strikes.FourMoreThanInside`). Five at the front door
  and five in all, counted between right tokens, are guaranteed exactly under the
  conditions of `Strikes.FiveAtTheDoorExactly` and `Strikes.FiveInAllExactly`.
- The comments of the access list speak of packets a device sends and of ports
  in bytes 22 and 23 (`internal/server/acl/acl.go:80-81`, `:118-119`). The list
  is applied to packets on their way to the device
  (`internal/server/server.go:493`), and the port is read behind a header of any
  length.
- The pool always runs to octet 254, whatever the subnet
  (`internal/server/clients.go:64`); `Registry.PoolFitsSubnet` proves that it
  lies inside the subnet exactly for prefixes of 24 bits or fewer.

## Model

| member | source | states |
|---|---|---|
| Frames.WriteFrame | internal/tunnel/frame.go:16-29 | A payload is refused exactly when it is longer than 65534 bytes; otherwise the bytes appended are the frame's encoding and nothing else. |
| Frames.ReadFrame | internal/tunnel/frame.go:33-53 | Reading consumes and returns exactly what the decoder says of the bytes at hand, errors and leftovers included. |
| Frames.DecodeAfterEncode | internal/tunnel/frame.go:16-53 | A frame read back from its encoding is the frame, and the bytes behind it are left alone. |
| Frames.EncodeAfterDecode | internal/tunnel/frame.go:33-53 | Conversely, whatever is read as a frame is exactly that frame's encoding: no two byte strings mean the same frame. |
| Bytes.BigEndian | internal/tunnel/frame.go:22 | Two- and four-byte numbers are written and read with the most significant byte first. |
| Frames.Layout | internal/tunnel/frame.go:16-29 | On the wire a frame is four bytes of length, counting the type, then the type, then the payload. |
| Frames.BadLengthExactly | internal/tunnel/frame.go:38-43 | A length is refused if and only if it is 0 or above 65535, whatever follows. |
| Frames.StreamRoundTrip | internal/tunnel/frame.go:16-53 | The concatenated encodings of any list of frames are read back as that list, then the end. |
| Frames.CutStream | internal/tunnel/frame.go:33-53 | A stream cut at any byte yields exactly the frames that are complete and then an error, and says which error. |
| Frames.DataFrameIsCarried | internal/server/proxy.go:81-97 | A proxy Data frame of one socket read is never refused and comes back with its stream id and its bytes. |
| ProxyWire.ProxyMux.NewId | internal/client/proxy.go:64-65 | The id counter is a 32-bit number that wraps around. |
| ProxyWire.ProxyMux.AddPending | internal/client/proxy.go:68-70 | From here on either answer to the dial is delivered to this handler, and no other frame is treated differently. |
| ProxyWire.ProxyMux.DropPending | internal/client/proxy.go:84-86 | Removes exactly this entry: a late answer is delivered to nobody. |
| ProxyWire.ProxyMux.AddStream | internal/client/proxy.go:179-181 | From here on the stream's data are written to this connection and its Close closes it, and no other frame is treated differently. |
| ProxyWire.ProxyMux.DropStream | internal/client/proxy.go:184-186 | Removes exactly this entry: later data of the stream are written nowhere. |
| ProxyWire.ProxyMux.Dispatch | internal/client/proxy.go:107-165 | The critical sections of the client's read loop, frame by frame: the loop stops if and only if it reads a Disconnect, answers exactly a Ping, and delivers, writes and closes for exactly the handler the entry names; a result takes out its pending entry, a Close its stream. |
| ProxyWire.ProxyMux.ReadLoop | internal/client/proxy.go:99-167 | The loop over any sequence of frames is the fold of those sections, one act for each frame up to the first Disconnect. |
| ProxyWire.LoopEndsAtDisconnect | internal/client/proxy.go:163-164 | It deals with exactly the frames up to and with the first Disconnect, or with all; what follows makes no difference. |
| ProxyWire.ActsInOrder | internal/client/proxy.go:101-166 | Each act is the dispatch of its frame in the table its predecessors left. |
| ProxyWire.ProxySession.AddStream | internal/server/proxy.go:72-74 | From here on the stream's data are written to this target and its Close closes it, and no other frame is treated differently. |
| ProxyWire.ProxySession.DropStream | internal/server/proxy.go:84-86 | Removes exactly this entry: later data of the stream are written nowhere. |
| ProxyWire.ProxySession.Dispatch | internal/server/proxy.go:47-136 | The critical sections of the server's frame loop: it returns if and only if it reads a Disconnect, answers exactly a Ping, dials exactly on a Dial, and writes and closes for exactly the target the entry names; a Close takes the entry out. |
| ProxyLoops.ServerStopsAtDisconnect | internal/server/proxy.go:134-135 | In every state of every run the frame loop has read nothing behind a Disconnect; if that is what it read last, none of its steps is possible any more and only the end of the session is left. |
| ProxyLoops.DisconnectClosesAll | internal/server/proxy.go:33-39 | And with that step every target is closed. |
| ProxyLoops.ClientStopsAtDisconnect | internal/client/proxy.go:163-164 | The client's read loop reads nothing behind a Disconnect either, whatever a server sends. |
| ProxyLoops.PingsAreAnswered | internal/server/proxy.go:131-132 | While its connection takes frames each end has written exactly one Pong per Ping it has read, but for at most one still to be written, and never more. |
| ProxyAnswers.DialsAreAnswered | internal/server/proxy.go:48-78 | A Dial the server has read and is done with is answered, by OK if and only if it opened a target and by Fail if and only if not. |
| ProxyAnswers.ResultsReachTheirHandler | internal/client/proxy.go:108-132 | Once the read loop has passed the result of a dial, the handler that waits has it in its channel, and it is the result the server gave. |
| ProxyAnswers.NoEntryOutlivesItsDial | internal/client/proxy.go:72-97 | A pending entry belongs to a dial still waiting, or to one given up on cancellation: a timeout or a failed write leaves none behind. |
| ProxyAnswers.LeavingIsAnnounced | internal/client/proxy.go:183-190 | While the connection takes frames, a target's reader that has ended has sent its Close, and so has a handler that has finished, unless it sent no Dial or was told that the dial failed. |
| ProxyWire.UnknownCloseIsIgnored | internal/client/proxy.go:147-158 | A Close changes nothing at either end if and only if its id is not in the table. |
| ProxyTables.TakeStep | internal/client/proxy.go:64-208 | Whatever step the system takes, the calls the source makes in it leave both objects' tables as the system has them. |
| ProxyTables.Replay | internal/server/proxy.go:41-137 | So after any run the two objects hold the tables of the state the run reaches. |
| ProxyIsolation.StreamsAreIsolated | internal/server/proxy.go:105-129 | A step of one stream changes nothing that any other stream can see. |
| ProxyStream.HandlerKeeps | internal/client/proxy.go:170-208 | Every step of a local connection's handler keeps the invariant of its stream; that it goes on is HandlerGoesOn. |
| ProxyStream.ReaderKeeps | internal/server/proxy.go:80-103 | Every step of a target's reader keeps the invariant of its stream. |
| ProxyStream.ClientRecvKeeps | internal/client/proxy.go:107-158 | Reading a frame of the stream keeps it at the client's end. |
| ProxyStream.ServerRecvKeeps | internal/server/proxy.go:47-129 | Reading a frame of the stream keeps it at the server's end. |
| ProxyTransfer.HandlerGoesOn | internal/client/proxy.go:192-207 | From its registration on a handler is about to read or about to send what it read, until a read of its socket or a frame write fails. |
| ProxyTransfer.ReaderGoesOn | internal/server/proxy.go:91-102 | So is a target's reader, until a read of its socket fails; failing frame writes do not stop it. |
| ProxyTransfer.ChunksArrive | internal/client/proxy.go:192-207 | For every list of non-empty reads of at most 32768 bytes, in any order of the two directions, some honest run brings each side exactly the concatenation of what the other side said, and goes on serving. |
| ProxySafety.InvKept | internal/server/proxy.go:41-137 | Every step of the whole system keeps all streams' invariants and the bookkeeping of ids, tables and frames. |
| ProxySafety.InvHolds | internal/client/proxy.go:99-208 | The invariant holds in every state that any run against a server running this code reaches. |
| ProxyTheorems.LocalBytesAreABlock | internal/server/proxy.go:80-103 | In every reachable state the bytes written to a local socket are one contiguous block of the bytes read from the target of the same id; the block starts behind what was skipped. |
| ProxyTheorems.NoTargetNoBytes | internal/client/proxy.go:134-145 | A local socket whose dial opened no target gets no bytes: none come from another stream. |
| ProxyTheorems.SkippedForGood | internal/client/proxy.go:173-181 | A handler registers once in a run; in every later state what it skipped is exactly the data of its stream that the read loop had passed at that step. |
| ProxyTheorems.BlockSinceRegistration | internal/client/proxy.go:134-145 | In every later state that data and the bytes written to the local socket together are a prefix of the target's bytes: only what was read before registration can be missing. |
| ProxyTheorems.StartsAtFirstByteExactly | internal/client/proxy.go:134-145 | The block starts at the target's first byte if and only if no data of the stream had been read when the handler registered. |
| ProxyTheorems.EarlyRegistrationSkipsNothing | internal/client/proxy.go:179-181 | If so, then in every later state its socket has got the target's bytes from the first one on. |
| ProxyBanner.BannerIsLost | internal/client/proxy.go:134-145 | Without any failure a target that speaks first can lose what it said: the socket gets its second byte and never the first. |
| ProxyTheorems.TargetBytesAreAPrefix | internal/server/proxy.go:72-116 | The bytes written to a target are always a prefix of what was read from the local connection that dialled it. |
| ProxyTheorems.TargetGetsEverything | internal/server/proxy.go:105-116 | Once the server has read all that was sent, a target in its table that takes writes has got everything a serving handler read. |
| ProxyTheorems.HandlerGetsEverything | internal/client/proxy.go:134-145 | Once the client has read all that was sent, a registered socket that takes writes has got, with what was skipped, everything its target's reader read. |
| ProxyTheorems.FramesComeInOrder | internal/client/proxy.go:183-208 | Each direction of a stream carries one opening, then data, then at most one Close; the server sends data behind its OK, the client only once it has read that OK. |
| ProxyTheorems.NoOrphans | internal/server/proxy.go:41-129 | While the connection is up, a stream in the server's table belongs to a handler still at work or has its Close queued behind its Dial, dial timeouts included. |
| ProxyTheorems.DrainedServerHoldsOnlyLiveStreams | internal/client/proxy.go:80-94 | Once the server has read all there is, its ids are a subset of the client's live ids. |
| ProxyClosing.NoTargetIsForgotten | internal/server/proxy.go:33-90 | In every state a target that has left the server's table is closed or about to be closed by the frame loop; once the session is over every target is closed. |
| ProxyHangUp.NoLocalIsForgotten | internal/client/proxy.go:147-158 | The socket of a serving handler is in the client's table if and only if it is neither closed nor about to be closed by the read loop. |
| ProxyHangUp.CloseIsHeededExactly | internal/client/proxy.go:147-181 | While a handler serves, the read loop has closed its socket or is about to if and only if the Close of its stream has been read, but had not been when the handler registered. |
| ProxyHangUp.CloseIsMissed | internal/client/proxy.go:147-181 | Without any failure a target that hangs up at once can leave the local connection open and served, with nothing left to read. |
| ProxyTheorems.CloseWorkFalls | internal/client/proxy.go:183-190 | Every Close sent or read uses up some of a stream's outstanding close work; no step adds to it. |
| ProxyTheorems.CloseHandshakeEnds | internal/server/proxy.go:80-129 | So a stream sees at most four Close events in a run of any length. |
| ProxyTheorems.EachDialHearsOnce | internal/client/proxy.go:108-132 | Whatever frames a server sends, duplicates and unknown ids included, a dial's one-slot channel gets at most one result and the read loop always finds room for it. |
| Registry.LeastFreeIsLeast | internal/server/clients.go:63-70 | The search finds the lowest free octet from 2 to 254, and fails only when all are taken. |
| Registry.ExhaustedAt253 | internal/server/clients.go:71-73 | It fails exactly when 253 clients are registered. |
| Registry.ClientRegistry.Assign | internal/server/clients.go:59-85 | A new client gets the lowest free address and nothing else changes; refused exactly at 253 clients; the uint8 counter does not wrap. |
| Registry.ClientRegistry.GetByIP | internal/server/clients.go:88-92 | The client registered under the address, or none. |
| Registry.ClientRegistry.Remove | internal/server/clients.go:107-111 | Removes that entry and no other. |
| Registry.PoolIsDotted | internal/server/server.go:136-147 | The pool's strings are the dotted quads of the subnet's first three bytes and the octet. |
| Registry.PoolFitsSubnet | internal/server/server.go:136-147 | The pool lies inside the subnet if and only if the prefix has at most 24 bits. |
| TunSwitch.QueueGetsItsOwn | internal/server/server.go:471-509 | However packets are interleaved, a live client is queued the first of its own permitted packets, by bytes 16 to 19, that fit in 256, in order, and a dead one nothing. |
| TunSwitch.QueueFillsTo256 | internal/server/server.go:498-507 | In numbers: a live client's queue becomes the old one and those packets, cut at 256. |
| TunSwitch.BuiltPacketIsLookedUp | internal/server/server.go:483-486 | A packet built with any legal header is looked up under the destination it was built for and under no other. |
| TunSwitch.TunSwitch.Judge | internal/server/server.go:493-507 | The decisions on one packet in their order: access list, dead flag, full queue. |
| TunSwitch.TunSwitch.Route | internal/server/server.go:479-507 | One packet changes the queue of the client whose address its bytes 16 to 19 spell, or the drop counter, or nothing. |
| TunSwitch.TunSwitch.RouteFromTun | internal/server/server.go:471-509 | The routing loop over any batch of reads changes queues and the drop counter as the fold of those decisions says. |
| TunSwitch.TunSwitch.ForwardToTun | internal/server/server.go:438-467 | What reaches the TUN device is what the exposed set accepts of the frames before the end; each refusal is one drop, both byte counters grow by what was written, and the client is dead afterwards. |
| TunSwitch.PassesExactly | internal/server/server.go:446-452 | In labeled mode a frame passes if and only if it is an unfragmented TCP or UDP packet headed for an allowed target; otherwise every packet does. |
| TunSwitch.PassingIsExact | internal/server/server.go:438-467 | What gets through of a list of frames is exactly those that pass, in order. |
| TunSwitch.RejectedIsExact | internal/server/server.go:446-452 | The refusals counted are exactly the packets that do not pass; other frames are not counted. |
| TunSwitch.TunSwitch.Serve | internal/server/server.go:427-433 | What is sent is a prefix of the queue up to the failing write, and both byte counters grow by exactly that. |
| TunTheorems.LeavesByItself | internal/server/server.go:398-435 | A handler keeps its address for good and leaves through its own last step only; no step of another handler, a reader or the router ends it. |
| TunSafety.InvKept | internal/server/server.go:398-509 | Every step of tunnel mode keeps ownership of addresses, head counts, byte balance, delivery and conservation. |
| TunSafety.InvHolds | internal/server/server.go:398-509 | The invariant holds in every state that any run reaches. |
| TunTheorems.PoolIsOwned | internal/server/clients.go:59-85 | In every reachable state each live handler, and nobody else, is registered under its own pool address; no two share one. |
| TunTheorems.OnlyOwnRemove | internal/server/server.go:398-405 | From Assign to its own Remove a handler keeps its entry whatever the others do; that Remove deletes this entry and no other. |
| TunTheorems.LowestFreeAddress | internal/server/clients.go:63-75 | A connection is turned away exactly when 253 addresses are taken and gets the lowest free one otherwise. |
| TunTheorems.PoolPacketFindsItsHolder | internal/server/server.go:479-490 | In every reachable state a packet whose bytes 16 to 19 are a pool address goes to the live client that holds that address and to nobody else. |
| TunTheorems.FromClientsExactly | internal/server/server.go:438-467 | What a client had written to the TUN device are, in order, exactly its packets that were allowed and that the device took; turned away and counted were exactly those not allowed. |
| TunTheorems.ServesToTheEnd | internal/server/server.go:427-467 | A handler stops serving only by a failed write or a closed and empty queue, its reader only by a failed read or a failed write to the TUN device. |
| TunTransfer.PacketsArrive | internal/server/server.go:427-509 | For every list of packets in any order of the two directions some run brings them all across, complete and in order. |
| TunTheorems.DeliveredInOrder | internal/server/server.go:471-508 | What is written to a client is an in-order selection of TUN packets whose bytes 16 to 19 are its address and which the policy in force allowed for its name; its queue never exceeds 256. |
| TunTheorems.EveryPacketIsAccountedFor | internal/server/server.go:479-507 | Every TUN packet of 20 bytes or more with a registered destination was enqueued once or dropped once; the drop counter is those drops and the refusals of the exposed set, but for at most one update under way in the routing loop and in each reader. |
| TunTheorems.ByteCountersBalance | internal/server/server.go:427-460 | The server's byte counters are the bytes moved for all clients ever connected less the updates under way, and equal the sums of the clients' counters once those are through. |
| TunTheorems.ActiveIsBounded | internal/server/metrics.go:25-26 | The active count is never negative and never exceeds the registered clients or the connections established. |
| TunTheorems.CountersAreExact | internal/server/server.go:398-435 | The active and total counts are the numbers of connections that are counted in and that ever were. |
| TunTheorems.RouteStepIsATurn | internal/server/server.go:473-508 | A routing step of the system is one turn of the switch's loop. |
| RateLimit.RateLimiter.IsBanned | internal/auth/ratelimit.go:29-39 | Tells whether a ban is in force and drops one that is over. |
| RateLimit.RateLimiter.RecordFailure | internal/auth/ratelimit.go:42-60 | The pruning loop keeps the failures of the last minute; the fifth bans and clears. |
| RateLimit.RateLimiter.Reset | internal/auth/ratelimit.go:63-68 | Forgets the failures and the ban of one address. |
| RateLimit.FifthBansForAMinute | internal/auth/ratelimit.go:42-60 | In numbers: a failure bans if and only if, with it, five lie in the last sixty seconds, and the ban holds for sixty seconds to the nanosecond. |
| RateLimit.PruningIsInvisible | internal/auth/ratelimit.go:29-60 | At every moment of every run with a clock that does not run backwards, the pruned list bans exactly when a limiter that keeps the full history does; the list stays sorted and shorter than five. |
| RateLimit.AddressesAreIndependent | internal/auth/ratelimit.go:42-68 | A call about one address changes nothing about another. |
| FrontDoor.Server.HandleConn | internal/server/server.go:341-386 | Blocked if and only if banned, dropped if and only if not banned and without an AUTH frame, otherwise admitted if and only if whitelisted or the first entry of the token's hash is neither used up nor expired, under that name and in the mode the client asked for; with the limiter, token list and failure counter afterwards. |
| FrontDoor.Server.SshPassword | internal/server/sshsrv.go:37-49 | The password is checked as a token, banned or not, and makes one failure or one reset. |
| FrontDoor.Server.SshKey | internal/server/sshsrv.go:52-72 | A managed key goes before a trusted one; either resets the limiter, any other key makes one failure. |
| FrontDoor.VisitIsTwoMoments | internal/server/server.go:347-384 | A connection handled from end to end is its two calls to the limiter, whoever else is inside. |
| FrontDoor.GateFollowsLimiter | internal/auth/ratelimit.go:29-68 | Over any interleaving of front-door and SSH calls of any addresses the limiter is in the state its own theorems speak of. |
| Strikes.DoorStaysShut | internal/server/server.go:347-350 | For sixty seconds from a failure that sets off a ban nobody of the address gets past the ban check, unless a reset comes between. |
| Strikes.AccountHolds | internal/auth/ratelimit.go:42-60 | In any interleaving the limiter's list is the tail of an address's failures since its last reset, five failures within a minute include one that sets off a ban, and within a minute of a ban only those fail at the front door who were already inside. |
| Strikes.FourMoreThanInside | internal/server/server.go:347-384 | For any interleaving of an address's connections, its SSH logins and everybody else's, any half-open minute between two resets holds at most 4 + k of its front-door failures, k being the most of its connections ever past the ban check at once. |
| Strikes.BoundIsReached | internal/server/server.go:347-384 | For every k of one or more some run without SSH logins has 4 + k failures at one moment. |
| Strikes.RefusalsUnbounded | internal/server/sshsrv.go:37-72 | For every n some run with nobody inside has n refused SSH logins at one moment. |
| Strikes.KeysReopen | internal/server/sshsrv.go:55-66 | For every n some run with one connection inside at a time, no login refused and no token right has n front-door failures at one moment. |
| Strikes.FiveAtTheDoorExactly | internal/server/server.go:347-384 | Five front-door failures a minute between right tokens are guaranteed if and only if at most one connection of the address is inside at a time and, if there is one, none of its SSH logins is recognised by key. |
| Strikes.FiveInAllExactly | internal/server/sshsrv.go:37-72 | Five failures a minute in all are guaranteed if and only if, besides, none of its SSH logins is refused. |
| Tokens.Manager.Add | internal/auth/token.go:85-101 | The new token is accepted until it expires unless its hash was there before, and every other token is answered as before. |
| Tokens.Manager.Validate | internal/auth/token.go:104-126 | Accepts if and only if the first entry of the hash is neither used up nor expired, under its name; nothing changes but the `used` mark of an accepted one-time entry. |
| Tokens.Manager.Revoke | internal/auth/token.go:129-140 | Reports whether the name exists and cuts out its first entry, nothing else. |
| Tokens.AcceptedExactlyWhenAlive | internal/auth/token.go:108-124 | A token is accepted if and only if it has an entry that is neither used up nor expired. |
| Tokens.Replay | internal/auth/token.go:85-149 | The store goes through any sequence of Add, Validate, Revoke and List accepting a token exactly as often as the runs of the lemmas below do. |
| Tokens.AcceptedAsPresented | internal/auth/token.go:104-126 | In every run that does not revoke its name, a reusable token is accepted exactly as often as it is presented no later than its expiry, and an unused one-time token exactly the first of those times. |
| Tokens.TokenLife | internal/auth/token.go:85-126 | The same counted from the call that adds the token. |
| Tokens.DeadForever | internal/auth/token.go:108-124 | Once every entry of a hash is used up or expired, no run of calls accepts it again. |
| Tokens.OneTimeMeansOnce | internal/auth/token.go:113-122 | A run of any calls accepts a one-time token at most once. |
| Tokens.NeverAfterExpiry | internal/auth/token.go:116-118 | No call after its expiry accepts a token. |
| Tokens.NeverAfterRevoke | internal/auth/token.go:129-140 | No call accepts a token whose entry was removed. |
| Tokens.RevokeDropsOne | internal/auth/token.go:133-135 | Revoke drops exactly the first entry of the name; the others keep their order. |
| Tokens.RevokeSparesTheOthers | internal/auth/token.go:133-135 | In a run that does not revoke the same name again, every later answer about every other token is unchanged. |
| Tokens.RevokeSparesOtherNames | internal/auth/token.go:133-135 | In runs that may, the later answers about another token are unchanged if and only if it has another name: a second revocation reaches a namesake one call sooner. |
| Packets.BuiltPacketIsRead | internal/server/expose.go:100-122 | Every header built per section 3.1 of RFC 791, with any options, is read as headed where it was built for; later fragments and other protocols are not read. |
| Packets.AddressBytes | internal/server/expose.go:118-121 | The destination is bytes 16 to 19 and the port the third and fourth byte behind the header, big-endian, whatever the options. |
| Packets.ReadPacketIsBuilt | internal/server/expose.go:101-121 | Conversely every packet that is read is a built one, field by field. |
| Packets.ReadingIsExact | internal/server/expose.go:100-122 | The byte-wise reads decide that specification, for every byte string. |
| Acl.Engine.Reload | internal/server/acl/acl.go:45-78 | The index answers for every device as the last rule of the list that names it; a failed read keeps the old policy. |
| Acl.Engine.Allow | internal/server/acl/acl.go:82-116 | The verdict is the declarative one: deny list first, then a closed allow list, then the default. |
| Acl.BuiltPacketIsParsed | internal/server/acl/acl.go:120-140 | On a packet built with any legal header the list reads the protocol by its number and, of TCP and UDP only, the port it was built for. |
| Acl.MatchesMeans | internal/server/acl/acl.go:143-151 | Protocol "*" and port 0 stand for any, and nothing else does. |
| Acl.AllowAdmitsItsPackets | internal/server/acl/acl.go:105-112 | Adding an allow to the rule in force admits exactly the packets it names as far as no deny names them; the first allow closes the list to all others; other devices notice nothing. |
| Acl.DefaultDecides | internal/server/acl/acl.go:92-115 | Without a rule that names ports every whole packet passes unless the default is "deny". |
| Acl.DenyRefusesItsPackets | internal/server/acl/acl.go:98-103 | Adding a deny to any rule refuses exactly the packets it names for the device the rule counts for, and changes no other verdict. |
| Acl.DenyOnlyTightens | internal/server/acl/acl.go:98-115 | So it never turns a refusal into an acceptance. |
| Acl.ParsersAgree | internal/server/acl/acl.go:120-140 | On every packet the allow-list check reads, the access list reads the same protocol and port. |
| Expose.ExposeSet.AllowSelf | internal/server/expose.go:55-57 | Lets TCP to the dashboard through; if none was set before, everything else is allowed or refused as before. |
| Expose.StartingSet | internal/server/server.go:195-208 | A set only in labeled mode; it starts with DNS, and the dashboard if it has a port, and nothing else. |
| Expose.DashboardStaysAllowed | internal/server/expose.go:39-57 | No run of refreshes takes the dashboard away. |
| Expose.ExposeSet.Set | internal/server/expose.go:59-67 | The allow set becomes the set of the listed services. |
| Expose.ExposeSet.Refresh | internal/server/expose.go:222-234 | A refresh that fails changes nothing. |
| Expose.ExposeSet.Routes | internal/server/expose.go:82-95 | One /32 per exposed address, strictly sorted, so without duplicates. |
| Expose.RoutesAreDetermined | internal/server/expose.go:82-95 | The order in which the map is walked cannot show: two such lists are equal. |
| Expose.LastGoodListIsKept | internal/server/expose.go:206-250 | After any run of refreshes the allow set is the last list that came through, or the initial one. |
| Expose.AcceptedPacketsAreRouted | internal/server/expose.go:69-122 | An accepted packet goes to DNS, to the dashboard, or to an address with a route in the current list; a client connected earlier may have been told an older one. |
| Expose.AllowedIsPermitted | internal/server/expose.go:69-79 | Deciding on strings is deciding on addresses: listed targets, DNS on port 53 and the dashboard, with or without DNS and dashboard. |
| Expose.NewSetFailsClosed | internal/server/expose.go:206-208 | Before the first list and without a dashboard a packet passes if and only if it is headed for cluster DNS on port 53; without DNS none does. |
| Expose.PacketCheckIsExact | internal/server/expose.go:69-122 | For every set and every byte string, a packet passes if and only if it is an unfragmented TCP or UDP packet headed for a target the set allows. |
| Expose.ExposeSet.ResolveTarget | internal/server/expose.go:127-141 | The loop over the looked-up addresses computes the resolution rule, failed lookups included. |
| Expose.ResolvedIsFirstAllowed | internal/server/expose.go:127-141 | The dial target is the first looked-up IPv4 address allowed on TCP for the port; there is none only when no address is allowed. |
| Expose.PushRoutes | internal/server/server.go:533-541 | No routes when pushing is off; otherwise the configured ones, followed in labeled mode by the exposed ones. |
| Routes.ContainsIsCovers | internal/client/push.go:25 | The masked comparison of bytes decides whether the first bits agree, for every prefix length. |
| Routes.SafeRoutes | internal/client/push.go:12-32 | The loop computes the filter. |
| Routes.FilterKeepsOrder | internal/client/push.go:15-31 | What is kept is exactly what is safe, in order, once per occurrence. |
| Routes.KeptExactly | internal/client/push.go:12-32 | A route is kept if and only if it is IPv4, at least a /8 and does not cover the server. |
| Routes.KeptRoutesAreSafe | internal/client/push.go:16-28 | No kept route is shorter than /8 or covers the server. |
| Routes.FilterIsIdempotent | internal/client/push.go:12-32 | Filtering twice is filtering once. |
| Routes.ApplyPush | internal/client/client.go:128-148 | Every pushed route that is installed is safe, and domains are resolved through the tunnel only if the resolver itself is routed there. |
| Routes.PrivateMeansRfc1918 | internal/server/push.go:64-67 | The test for private addresses is the three blocks of section 3 of RFC 1918. |
| Routes.GuessCoversItsAddress | internal/server/push.go:64-68 | The guessed range contains the API address, is private throughout or nowhere, and every address in it yields the same range: the host bits are masked away. |
| Routes.GuessMeetsFilter | internal/server/push.go:64-68 | The client keeps the guessed range exactly when it does not cover the server. |
| Routes.K8sPush | internal/server/push.go:54-95 | Routes and DNS derived from resolv.conf by the loops over lines and fields. |
| Routes.FirstNameserverCounts | internal/server/push.go:77-80 | The first nameserver line is used. |
| Routes.SvcDomainIsFirst | internal/server/push.go:83-88 | The domain is what follows "svc." in the first field that starts with it, if any does. |
| Routes.LastSearchCounts | internal/server/push.go:81-88 | Of the search lines with a svc entry the last one is used. |
| Routes.NoSearch | internal/server/push.go:81-88 | Without such a line there is no search domain. |
| Routes.Config.ResolvePush | internal/server/push.go:15-50 | Configuration, then environment, then Kubernetes, field by field; nothing is pushed when pushing is off, and the cluster DNS is learned all the same. |
| Dotted.RenderInjective | internal/server/expose.go:120 | Two addresses never share a dotted-quad string. |

## Left out

- ProxyTheorems.LocalBytesAreABlock: at most 2^32 dials in the life of a connection, because the id counter wraps and ids are then reused; the same holds for every theorem about honest servers. Sockets that fail a write are taken to fail for good.
- ProxyTheorems.NoOrphans: is about the server's table; what the client's holds is `ProxyHangUp.NoLocalIsForgotten` and `ProxyHangUp.CloseIsHeededExactly`.
- ProxyHangUp.NoLocalIsForgotten: is about serving handlers; one that has finished closes its socket as its own last step, which is enabled from then on but not forced.
- ProxyTransfer.ChunksArrive: such runs exist; that every run gets there is not claimed, since sockets, connection and scheduler may stop at any moment.
- ProxyLoops.PingsAreAnswered: is about proxy mode; the keepalive frames of tunnel mode are not modelled.
- Strikes.FourMoreThanInside: a failure counts at the moment it is recorded, which may be later than the token check itself.
- TunTheorems.ByteCountersBalance: counters are unbounded integers, not 64-bit ones.
- Frames.WriteFrame: a write always goes through here; failing writes are steps of the two transition systems.
- TunTheorems.DeliveredInOrder: a routing step looks up, decides and sends at once; in the source the dead flag can be set and the queue closed between the check and the send. Nothing is claimed about that race.
- TunSwitch.TunSwitch.Serve: drains a queue that nobody fills at the same time; the interleaved case is the transition system's. Likewise the other loops on the heap.
- Tokens.Manager.Validate: entries are values in a list rather than shared pointers, so List copies the entries into an array of the caller's own, and a caller that sees an entry marked used through a pointer it kept is not captured. Hashes are taken not to collide where a lemma asks for it.
- Tokens.Manager.Revoke: saving to disk, and what a failed save or a restart does.
- FrontDoor.Server.HandleConn: the whitelist is a fixed map from address to name, and the mode that follows admission is the business of the other modules.
- Routes.SafeRoutes: CIDR texts are parsed already; IPv4-mapped IPv6 texts are not dotted IPv4 and not part of the model.
- Routes.ApplyPush: the regular expression for domain names is a parameter.
- TLS, trust on first use, JSON and YAML encodings, the HTTP API, the web dashboard, the SSH server beyond its calls to the token store and the limiter, the Kubernetes client and its service list, installer and updater.
- TUN configuration, operating system routes, DNS files, signals and the reaper's timing; a reaped connection is one whose reads or writes fail.
- Reconnecting with backoff, profiles, forward rules, process files and direct listeners.
- Sockets may fail at any moment in the models, more often than real ones do; reads may still succeed after a failed write.
