# Verified model of PKIX-SSH core protocols

This project models the parts of PKIX-SSH 12.5.1 whose correctness spans many steps, and proves what
they are relied on for. `dafny verify dfyconfig.toml` checks everything.

| area | specification and theorems | the mutable code |
|---|---|---|
| channel flow control and closing | `Channel.dfy`, `Flow.dfy`, `Delivery.dfy`, `AnyPeer.dfy` | `ChannelObject.dfy`, `NetworkObject.dfy` |
| channel table and multiplexing proxy | `Mux.dfy`, `MuxHistory.dfy` | `MuxObject.dfy` |
| SOCKS 4, 4A and 5 request decoding | `Socks.dfy` | `SocksObject.dfy` |
| user authentication with required methods | `Lists.dfy`, `AuthMethods.dfy`, `AuthRun.dfy`, `AuthHistory.dfy` | `AuthObject.dfy` |
| revocation-list bitmap | `Bits.dfy`, `Bitmap.dfy` | `BitmapObject.dfy` |
| ChaCha20, chacha20-poly1305, CBC | `ChaCha.dfy`, `ChaChaRounds.dfy`, `ChaChaKnown.dfy`, `ChachaPoly.dfy`, `Cbc.dfy` | `ChaChaObject.dfy`, `ChachaPolyObject.dfy`, `Cbc.dfy` |
| atomic input and output | `Atomicio.dfy` | `Atomicio.dfy` |
| address lists | `Addr.dfy`, `AddrList.dfy`, `AddrNumbers.dfy` | `AddrObject.dfy` |
| UTF-8 | `Utf8.dfy` | `Utf8.dfy` |
| key options codec | `AuthOpt.dfy`, `AuthOptWire.dfy` | `AuthOptObject.dfy` |
| confirmation queue | `Confirms.dfy` | `Confirms.dfy` |

Each C structure that is updated in place is a class; its methods are proved to do what the specification
functions say, and the theorems are about every run, every input or every split of the input. Drivers
(`Network`, `RunEvents`, `ReadAll`, `Authenticate`, `Reimport`, `Transport`, `Recover`, `Converse`) carry the theorems over to the objects. Fixed-width
arithmetic is written out: words are bounded integers with explicit wrap-around (`Ints.dfy`), and bitwise
operators are defined bit by bit (`Bits.dfy`).

## What the code does not promise

Some expected properties do not hold without a condition. Each bullet names the member that proves the condition
exact and the one that gives a counterexample.

- A failed write discards buffered output without crediting the window, so a sender can be left without credit
  (`Flow.StarvedIsRevived`, `Flow.LostWindowCanDeadlock`). Refused stderr shrinks the usable window the same way
  (`Flow.RefusedStderrCanDeadlock`).
- A mux client that is marked dead and freed later is no longer recognised as a client, and its proxies keep
  pointing at it (`MuxRuns.FreeDetachesExactly`, `MuxRuns.DeadClientStrandsProxies`).
- A mux client that leaves before the server has confirmed one of its channels takes the process with it
  (`MuxRuns.DepartureIsFatal`, `MuxRuns.DepartureCanBeFatal`).
- An `AuthenticationMethods` item that names a device of a method other than keyboard-interactive lets the
  method run and then aborts on its success (`AuthRuns.AbortsExactly`, `AuthRuns.DeviceItemAborts`).
- A bitmap may hold the number at its limit, but then its export is too long to be imported
  (`BitmapSpec.ExportIsReadable`, `BitmapObject.LimitIsNotReadBack`).
- A first iovec entry that is empty ends `atomiciov6` at once (`Atomicio.Atomiciov`, `Atomicio.EmptyEntryFirst`).
- An address list with both an invalid entry and a negated match depends on their order
  (`AddrListSpec.OrderIrrelevantExactly`, `AddrListSpec.OrderMatters`); the comment in the source lists the
  results without saying so.
- `UTF8_putc` writes six bytes for values of 2^31 and above, which do not read back (`Utf8.RoundTripExactly`,
  `Utf8.NotReadBack`).
- Options with flags outside a byte or a tunnel number below -1 change on the way (`AuthOptTheorems.RoundTripExactly`,
  `AuthOptTheorems.TunnelIsLost`).
- A SOCKS 5 method message does not bind the client to version 5: a version 4 request that follows it is served
  (`SocksTheorems.GrantedAfterGreetingExactly`, `SocksTheorems.GreetingDoesNotBind`).

## Model

| member | source | states |
|---|---|---|
| Flow.InitInv | pkixssh-12.5.1/channels.c:3167-3203 | the state right after an open request was answered satisfies the two-ended invariant |
| Flow.StepKeepsInv | pkixssh-12.5.1/channels.c:2553-2700 | every descriptor event and every delivered packet, at either end, keeps window conservation, window accounting, byte conservation and the shape of the links |
| Flow.RunKeepsInv | pkixssh-12.5.1/channels.c:1949-2209 | the invariant holds in every state of every run, for every interleaving of both ends |
| Flow.WindowConserved | pkixssh-12.5.1/channels.c:2608-2625 | in every reachable state local_window at the receiver is the sender's remote_window plus bytes and credit in flight (plus refused stderr), and the receiver's own books sum to local_window_max |
| Flow.EveryPacketIsTaken | pkixssh-12.5.1/channels.c:3035-3071 | in every reachable state the next packet is processed; the "big packet", "too much data", "too much extended data", data-after-EOF, adjust-overflow and not-opening branches are dead, and only stderr for a descriptor that is not open is refused |
| Flow.StreamPreserved | pkixssh-12.5.1/channels.c:2001-2094 | what was read at one end is what was written at the other, then what it buffers, what is in flight and what waits to be sent, in order; the written part is always a prefix |
| Flow.StarvedIsRevived | pkixssh-12.5.1/channels.c:2180-2209 | for a sender with no credit and a drained receiver: the exact condition under which channel_check_window sends an adjust, and the exact credit it returns |
| Flow.NoDeadlock | pkixssh-12.5.1/channels.c:2180-2209 | with a window of at least two and no failed write or refused stderr, the adjust is sent and restores the full window |
| Flow.LostWindowCanDeadlock | pkixssh-12.5.1/channels.c:2001-2094 | a concrete reachable run in which a failed write loses the whole window: the sender has data but no credit, nothing is in flight, and channel_check_window sends no adjust |
| Flow.RefusedStderrCanDeadlock | pkixssh-12.5.1/channels.c:3097-3112 | a concrete reachable run in which no write failed and refused stderr uses up the whole window: the sender has data but no credit, and no adjust is sent |
| Delivery.PollSends | pkixssh-12.5.1/channels.c:2553-2700 | a poll sends exactly one data packet with the first bytes of the input, as many as are buffered, credited and allowed per packet, whichever is least; then the same for stderr with what credit is left; and EOF alone for a draining half with nothing left to send |
| Delivery.PollIdles | pkixssh-12.5.1/channels.c:2666-2700 | a channel that is not open or has seen a CLOSE sends nothing |
| Delivery.HalvesEndInOrder | pkixssh-12.5.1/nchan.c:124-165 | in every reachable state of two ends: an input half that is closed with bytes still in it has received CLOSE or EOW; an EOF that did not answer a CLOSE was sent with nothing left; an output half closes only after EOF, CLOSE or a failed write; and what one end has sent of EOF and CLOSE the other has received or will |
| Delivery.EverythingArrives | pkixssh-12.5.1/channels.c:1949-2209 | from every reachable state with the sending half up and the receiving half up: end of input, then polls, deliveries, writes and window checks lead to a state where all that was read, and its stderr, has been written at the other end and EOF has arrived, however little credit there was |
| Delivery.OneDirection | pkixssh-12.5.1/nchan.c:124-165 | and on to the closed output half of the receiver |
| Delivery.ChannelCloses | pkixssh-12.5.1/nchan.c:331-370 | from every reachable state with both ends up, both directions arrive and CLOSE goes both ways |
| AnyPeer.ThreeWays | pkixssh-12.5.1/channels.c:3011-3286 | every packet, of whatever peer, ends the connection in exactly three cases, is ignored without a trace in exactly the listed cases, and is otherwise taken |
| AnyPeer.AnsweredByEof | pkixssh-12.5.1/nchan.c:252-303 | the only answer a packet gets at once is one EOF: to a CLOSE that finds the input draining, or to an EOF that forces an idle input half to drain |
| AnyPeer.OnClose | pkixssh-12.5.1/nchan.c:265-303 | the halves, the stderr descriptor and the EOF flag after CLOSE, and nothing else |
| AnyPeer.OnEof | pkixssh-12.5.1/channels.c:3126-3149 | the halves and the EOF flag after EOF, with and without forced drain, and nothing else |
| AnyPeer.OnEow | pkixssh-12.5.1/nchan.c:167-177 | EOW closes an open input half and does nothing else |
| AnyPeer.NeverMoreThanGranted | pkixssh-12.5.1/channels.c:3035-3071 | against any sequence of packets and any own actions: while the output half is open the window is what was granted less what was taken, and the buffers hold exactly what the books say |
| AnyPeer.FlagsFixHalves | pkixssh-12.5.1/nchan.c:252-303 | against any sequence of packets: what EOF, CLOSE, an own EOF, forced drain and unwanted stderr leave of the halves |
| AnyPeer.CreditPolicy | pkixssh-12.5.1/channels.c:2180-2209 | credit is returned, all of it, exactly when some was consumed and the window is three packets or half its maximum behind |
| AnyPeer.CreditReturns | pkixssh-12.5.1/channels.c:2180-2209 | so a checked channel with nothing buffered is at its maximum, or at half of it and within three packets |
| AnyPeer.WaitsExactly | pkixssh-12.5.1/channels.c:1083-1118 | when each descriptor is waited for |
| AnyPeer.DeadExactly | pkixssh-12.5.1/nchan.c:331-370 | when a channel is dead, and when the CLOSE is sent |
| AnyPeer.FailedWriteStopsPeer | pkixssh-12.5.1/nchan.c:305-322 | a failed write of a session makes the peer stop reading |
| AnyPeer.DescriptorsOpen | pkixssh-12.5.1/channels.c:1041-1062 | a session that gets its descriptors is open with the window asked for, and the peer is told |
| ChannelObject.Channel.constructor | pkixssh-12.5.1/channels.c:349-400 | a new channel starts with open halves, empty buffers and a full local window |
| ChannelObject.Channel.HandleRfd | pkixssh-12.5.1/channels.c:1949-1999 | appends what was read, starts draining at end of input and keeps what is buffered, ignores retries; a failed read of a channel that is not open marks it dead |
| ChannelObject.Channel.HandleWfd | pkixssh-12.5.1/channels.c:2001-2094 | removes what was written from the front of the output and counts it as consumed; on failure discards the output and closes that half, or marks a channel that is not open dead; nothing happens on an empty buffer |
| ChannelObject.Channel.WriteFailed | pkixssh-12.5.1/nchan.c:305-322 | closes an output half that was not closed, with EOW for a session whose peer understands it, and nothing otherwise |
| ChannelObject.Channel.SendEow | pkixssh-12.5.1/nchan.c:227-250 | sends EOW exactly on an output half that is not closed, to a peer that understands it |
| ChannelObject.Channel.DrainOutputHalf | pkixssh-12.5.1/nchan.c:146-165 | an output half that waits for its buffer is closed exactly once that is empty and stderr is not active |
| ChannelObject.Channel.HandleEfdWrite | pkixssh-12.5.1/channels.c:2096-2124 | the same for the extended descriptor, which is closed on failure |
| ChannelObject.Channel.HandleEfdRead | pkixssh-12.5.1/channels.c:2126-2160 | buffers or discards stderr by usage, closes the descriptor at its end |
| ChannelObject.Channel.CheckWindow | pkixssh-12.5.1/channels.c:2180-2209 | sends exactly the consumed credit and moves it into the window, under the unsigned tests of the source |
| ChannelObject.Channel.IbufEmpty | pkixssh-12.5.1/nchan.c:124-144 | announces end of data once and closes the input half |
| ChannelObject.Channel.OutputPollInputOpen | pkixssh-12.5.1/channels.c:2553-2626 | sends at most the buffered, windowed and per-packet amount from the front of the input, or the delayed EOF |
| ChannelObject.Channel.OutputPollExtendedRead | pkixssh-12.5.1/channels.c:2631-2663 | the same for stderr |
| ChannelObject.Channel.OutputPoll | pkixssh-12.5.1/channels.c:2666-2700 | input before stderr, and nothing once a CLOSE went either way |
| ChannelObject.Channel.PreOpen | pkixssh-12.5.1/channels.c:1083-1118 | reports exactly which descriptors are waited for, and closes a drained output half unless stderr is still active |
| ChannelObject.Channel.WantsExt | pkixssh-12.5.1/channels.c:1105-1116 | the extended descriptor is waited for by its usage, unless both halves are closed |
| ChannelObject.Channel.IsDead | pkixssh-12.5.1/nchan.c:331-370 | a zombie; or two closed halves without stderr still held for a lenient peer, on a local channel or with CLOSE in both directions; sends the CLOSE if asked to |
| ChannelObject.Channel.GarbageCollect | pkixssh-12.5.1/channels.c:2411-2431 | a callback is notified once the channel is dead and may keep it; otherwise the channel is freed exactly if it is dead, and the only packet it sends is the CLOSE it owes |
| ChannelObject.Channel.RegisterFds | pkixssh-12.5.1/channels.c:303-340 | sets the extended descriptor and its usage and nothing the windows count |
| ChannelObject.Channel.SetFds | pkixssh-12.5.1/channels.c:1041-1062 | opens a larval channel and grants its first window |
| ChannelObject.Channel.InputData | pkixssh-12.5.1/channels.c:3011-3071 | every disposition of a data packet, including faked consumption on a closing output half |
| ChannelObject.Channel.InputExtendedData | pkixssh-12.5.1/channels.c:3073-3124 | every disposition of an extended packet: after EOF with and without the compatibility flag, by usage and type code, and against the window |
| ChannelObject.Channel.InputWindowAdjust | pkixssh-12.5.1/channels.c:3258-3286 | adds credit, fatal on wrap-around |
| ChannelObject.Channel.InputOpenConfirmation | pkixssh-12.5.1/channels.c:3167-3203 | learns the peer's window once, fatal otherwise |
| ChannelObject.Channel.RcvdIeof | pkixssh-12.5.1/nchan.c:252-263 | notes EOF and drains or closes the output half |
| ChannelObject.Channel.InputIeof | pkixssh-12.5.1/channels.c:3126-3149 | the same, followed by the forced input drain |
| ChannelObject.Channel.RcvdOcloseInput | pkixssh-12.5.1/nchan.c:265-303 | closes the input half on CLOSE, with EOF first if it was draining |
| ChannelObject.Channel.InputOclose | pkixssh-12.5.1/channels.c:3151-3165 | notes CLOSE, tears a larval channel down at once |
| ChannelObject.Channel.InputEow | pkixssh-12.5.1/nchan.c:167-177 | closes an open input half |
| ChannelSpec.WantedIsEnabled | pkixssh-12.5.1/channels.c:1083-1118 | whatever an open channel waits for, the event loop can act on: a readable or writable descriptor never finds its handler disabled |
| NetworkObject.Perform | pkixssh-12.5.1/channels.c:1949-2209 | each action of the event loop, through the handlers of the object, is the specified action |
| NetworkObject.Accept | pkixssh-12.5.1/channels.c:3011-3286 | each packet handler of the object is the specified one |
| NetworkObject.Network.constructor | pkixssh-12.5.1/channels.c:3167-3203 | two channel objects, one asking and one answering, are an initial state |
| NetworkObject.Network.Local | pkixssh-12.5.1/channels.c:1949-2209 | an event at either end, carried out on the objects, is the step of the two-ended model, and the pair stays in a state that a run reaches |
| NetworkObject.Network.Deliver | pkixssh-12.5.1/channels.c:3011-3286 | so is the delivery of a packet, and it is never refused fatally |
| NetworkObject.Network.Delivers | pkixssh-12.5.1/channels.c:2001-2094 | so whatever was done to two valid objects, each has written a prefix of what the other read, and both windows are accounted for |
| MuxHistory.RemoteIsLastTold | pkixssh-12.5.1/channels.c:2896-2975 | over every run the remote id of a proxy is r if and only if the messages say so: the acceptance that made it named r, or the last confirmation since that is long enough starts with r; also after its client has left |
| MuxHistory.FreedAtSecondNamedClose | pkixssh-12.5.1/channels.c:2742-2975 | over every run, while live remote ids are unique: a proxy disappears at exactly the second of the server's CLOSE for its slot and a client's CLOSE that names the id the messages gave it |
| MuxHistory.FreedAfterDeparture | pkixssh-12.5.1/channels.c:577-633 | over every run a channel whose client has left disappears at exactly the first collection, or the first CLOSE found to be for it, after the server's CLOSE |
| MuxHistory.RefusedWhenFull | pkixssh-12.5.1/channels.c:349-400 | over every run a new channel is refused if and only if 16390 are live, the size the table reaches in steps of ten |
| MuxHistory.OneChannelLife | pkixssh-12.5.1/channels.c:2742-2975 | a run for every id: opened, confirmed as r, closed by the client as r, closed by the server; the slot is free and the client has received both messages under its own id |
| MuxRuns.StepKeepsWellFormed | pkixssh-12.5.1/channels.c:349-400 | every table operation keeps each live channel in the slot of its own id, object identities unique and no proxy with both CLOSE flags |
| MuxRuns.RunWellFormed | pkixssh-12.5.1/channels.c:577-633 | so does every run |
| MuxRuns.RunExtends | pkixssh-12.5.1/channels.c:2742-2888 | every enabled event extends a run: well-formedness never blocks one |
| MuxRuns.Lineage | pkixssh-12.5.1/channels.c:349-400 | a channel found in a slot is the same object, with the same id and owner, as at any earlier time it existed |
| MuxRuns.ProxyKeepsOrigin | pkixssh-12.5.1/channels.c:2742-2888 | over any run a proxy keeps pointing at the client whose open request made it, with that client's own id |
| MuxRuns.UpstreamDelivers | pkixssh-12.5.1/channels.c:2896-2975 | a server packet for a proxy is appended, under the original id, to its client's output and to no other |
| MuxRuns.PacketsReachTheirClient | pkixssh-12.5.1/channels.c:2896-2975 | the same over whole runs, from the open request to any later packet |
| MuxRuns.CloseFindsItsChannel | pkixssh-12.5.1/channels.c:256-268 | with unique live remote ids, a client's CLOSE is matched to exactly the proxy with that remote id |
| MuxRuns.StepCloses | pkixssh-12.5.1/channels.c:2742-2975 | what any single step does to a proxy's life and its two CLOSE flags |
| MuxRuns.FlagsTellHistory | pkixssh-12.5.1/channels.c:2742-2975 | each flag is set exactly when that direction's CLOSE occurred since the proxy was made |
| MuxRuns.FreedAtSecondClose | pkixssh-12.5.1/channels.c:2742-2975 | over every run a proxy disappears at exactly the second of the two directions' CLOSEs |
| MuxRuns.FreeDetachesExactly | pkixssh-12.5.1/channels.c:577-633 | freeing a channel leaves no proxy pointing at it if and only if it is still typed as a mux client or had none |
| MuxRuns.StepKeepsLinked | pkixssh-12.5.1/channels.c:577-633 | unless a client with channels is marked dead, every step keeps every proxy attached to a live client |
| MuxRuns.RunKeepsLinked | pkixssh-12.5.1/channels.c:2896-2975 | so over such runs every proxy always has its client to deliver to |
| MuxRuns.DeadClientStrands | pkixssh-12.5.1/channels.c:577-633 | in any table: marking a client with a proxy dead and freeing it leaves the proxy with nobody to deliver to |
| MuxRuns.StepKeepsAddressed | pkixssh-12.5.1/nchan.c:203-224 | a CLOSE is noted only for channels whose remote id is known, and every step keeps it so |
| MuxRuns.RemoteTellsHistory | pkixssh-12.5.1/channels.c:2896-2975 | over every run a proxy knows its remote id exactly if it was opened by its client accepting a channel, or the server has confirmed it since |
| MuxRuns.DepartureIsFatal | pkixssh-12.5.1/nchan.c:203-224 | the CLOSE due for a departed client's proxy ends the process if and only if the client had asked for that channel and the server had not confirmed it |
| MuxRuns.DepartureCanBeFatal | pkixssh-12.5.1/nchan.c:203-224 | a run from the empty table reaches it: a client connects, asks for a channel and leaves |
| MuxRuns.DeadClientStrandsProxies | pkixssh-12.5.1/channels.c:577-633 | a run from the empty table ends so: a client connects, opens a channel, is marked dead and freed |
| MuxObject.Channels.constructor | pkixssh-12.5.1/channels.c:224-237 | the table starts with ten free slots |
| MuxObject.Channels.ChannelNew | pkixssh-12.5.1/channels.c:349-400 | fills the first free slot, growing the table by ten up to the limit, fatal beyond it |
| MuxObject.Channels.ChannelFree | pkixssh-12.5.1/channels.c:577-633 | detaches the proxies of a client, clears the slot and keeps the table well-formed |
| MuxObject.Channels.ChannelByRemoteId | pkixssh-12.5.1/channels.c:256-268 | finds the first live channel with that remote id, or none |
| MuxObject.Channels.Deref | pkixssh-12.5.1/channels.c:2896-2975 | following the pointer of a proxy finds the slot of the object at that address |
| MuxObject.Channels.ProxyDownstream | pkixssh-12.5.1/channels.c:2742-2888 | opens a proxy, or notes or completes a CLOSE, and keeps the table well-formed |
| MuxObject.Channels.NoteUpstream | pkixssh-12.5.1/channels.c:2956-2973 | records the remote id that the confirmation starts with if more follows it, or notes or completes a CLOSE |
| MuxObject.Channels.ProxyUpstream | pkixssh-12.5.1/channels.c:2896-2975 | delivers the packet through the proxy's own pointer, then learns the remote id or notes or completes a CLOSE |
| MuxObject.Channels.Collect | pkixssh-12.5.1/nchan.c:331-370 | a detached proxy is freed once its CLOSE is answered |
| MuxObject.Channels.Apply | pkixssh-12.5.1/channels.c:2742-2975 | every event on the table is the specified step, is fatal exactly when specified, and keeps the table well-formed |
| MuxObject.Channels.RunEvents | pkixssh-12.5.1/channels.c:2742-2975 | a sequence of events handled by the object is a run, up to the first that cannot happen or is fatal |
| SocksTheorems.DecodeStable | pkixssh-12.5.1/channels.c:1530-1574 | a verdict on a prefix stands for every longer input, and waiting changes nothing but one completed method message |
| SocksTheorems.DriveExtends | pkixssh-12.5.1/channels.c:1530-1574 | bytes that arrive later might as well have arrived earlier |
| SocksTheorems.DriveIsQuiet | pkixssh-12.5.1/channels.c:1530-1574 | after the event loop settles nothing is left to do |
| SocksTheorems.ChunkingIsIrrelevant | pkixssh-12.5.1/channels.c:1530-1574 | for every stream and every split into reads: same verdict, host, port, leftover bytes and replies as in one read |
| SocksTheorems.SameStreamSameVerdict | pkixssh-12.5.1/channels.c:1530-1574 | any two splits of the same stream agree |
| SocksTheorems.NeedMoreConsumes | pkixssh-12.5.1/channels.c:1391-1423 | waiting consumes either nothing or exactly one method message that offers "no authentication" |
| SocksTheorems.Socks5Conversation | pkixssh-12.5.1/channels.c:1370-1504 | however its bytes are split, a version 5 client that offered "no authentication" gets [5, 0] and the success reply, and is given exactly the port it asked for and the host: a name up to its first NUL, an IPv4 or IPv6 address as inet_ntop writes it, a rejection exactly if that fails; without the offer it is turned away |
| SocksTheorems.NoEarlyVerdict | pkixssh-12.5.1/channels.c:1530-1578 | a request that is accepted with nothing left over was still waited on at every shorter part |
| SocksTheorems.Socks4Conversation | pkixssh-12.5.1/channels.c:1244-1359 | a version 4 or 4A request is granted for exactly its host and port if and only if it is a connect whose last terminator lies no further than position 1025 |
| SocksTheorems.Accepted4Asks | pkixssh-12.5.1/channels.c:1244-1359 | whatever the version 4 decoder accepts is such a request |
| SocksTheorems.Accepted5Asks | pkixssh-12.5.1/channels.c:1425-1504 | whatever the version 5 decoder accepts is a connect request for an address that can be written out |
| SocksTheorems.AfterGreeting | pkixssh-12.5.1/channels.c:1530-1574 | once "no authentication" was offered, the rest of the stream is decoded on its own, however it is split |
| SocksTheorems.Version4AfterGreeting | pkixssh-12.5.1/channels.c:1549-1562 | a version 4 request after a version 5 greeting is granted, with the replies of both versions |
| SocksTheorems.GrantedAfterGreetingExactly | pkixssh-12.5.1/channels.c:1549-1562 | after the greeting access is granted by the version 4 reply if and only if a version 4 connect request follows, by the version 5 reply if and only if a version 5 one does, and in no other way |
| SocksTheorems.GreetingDoesNotBind | pkixssh-12.5.1/channels.c:1549-1562 | a concrete conversation: the greeting, then version 4 |
| SocksObject.FindTerminators | pkixssh-12.5.1/channels.c:1274-1289 | the scan for the terminators: found, not yet, or too long |
| SocksObject.DynamicChannel.TakeStrings4 | pkixssh-12.5.1/channels.c:1299-1341 | consumes user and host names and sets the target |
| SocksObject.DynamicChannel.AnswerSocks4 | pkixssh-12.5.1/channels.c:1290-1359 | a complete request: strings, port, reply |
| SocksObject.DynamicChannel.DecodeSocks4 | pkixssh-12.5.1/channels.c:1244-1359 | implements the specified version 4 decoder on the channel's buffers |
| SocksObject.DynamicChannel.OffersNoAuth | pkixssh-12.5.1/channels.c:1399-1405 | true exactly if method 0 is among those offered |
| SocksObject.DynamicChannel.DecodeMethods5 | pkixssh-12.5.1/channels.c:1391-1423 | the method message |
| SocksObject.DynamicChannel.SetHost5 | pkixssh-12.5.1/channels.c:1472-1486 | a name up to its first NUL, or none if it is 1025 bytes or longer; otherwise what inet_ntop makes of the address in its family |
| SocksObject.DynamicChannel.DecodeRequest5 | pkixssh-12.5.1/channels.c:1425-1504 | the connect request |
| SocksObject.DynamicChannel.PreDynamic | pkixssh-12.5.1/channels.c:1530-1574 | the channel dies, waits or opens as specified |
| SocksObject.DynamicChannel.Settle | pkixssh-12.5.1/channels.c:1530-1574 | rounds of the event loop until one changes nothing |
| SocksObject.DynamicChannel.ReadChunk | pkixssh-12.5.1/channels.c:1530-1574 | a read and the rounds after it are the specified feed |
| SocksObject.DynamicChannel.ReadAll | pkixssh-12.5.1/channels.c:1530-1574 | a channel object that reads a conversation in any pieces ends where reading it at once ends |
| AuthMethods.StartsWithIsItemMatch | pkixssh-12.5.1/auth2.c:619-644 | the prefix test on the string decides exactly about the first item of the list |
| AuthMethods.RemovedRest | pkixssh-12.5.1/auth2.c:651-669 | a match removes exactly the first item and its comma |
| AuthMethods.RemoveIsTail | pkixssh-12.5.1/auth2.c:651-669 | the string edit refines removal of the head of the list of names |
| AuthRuns.GreedyIsComplete | pkixssh-12.5.1/auth2.c:677-700 | striking off items one success at a time empties a list if and only if it is an ordered subsequence of the successes |
| AuthRuns.UpdateCompletes | pkixssh-12.5.1/auth2.c:677-700 | completion is reported if and only if some list is finished by this success |
| AuthRuns.UpdateFinds | pkixssh-12.5.1/auth2.c:677-700 | a success is found if and only if some list starts with it |
| AuthRuns.UpdateStrikes | pkixssh-12.5.1/auth2.c:677-700 | without completion, every list loses its matching head and nothing else |
| AuthRuns.UpdateGrants | pkixssh-12.5.1/auth2.c:677-700 | completion if and only if a retained list is a subsequence of all successes so far |
| AuthRuns.RunInv | pkixssh-12.5.1/auth2.c:358-453 | in every state of every run the current lists are what the successes so far leave of the retained ones |
| AuthRuns.GrantedExactlyWhenSatisfied | pkixssh-12.5.1/auth2.c:381-386 | over every run access is granted at exactly the exchange where some retained list first becomes an ordered subsequence of the successes |
| AuthRuns.PartialShrinks | pkixssh-12.5.1/auth2.c:677-700 | a partial success uses up at least one list item |
| AuthRuns.FailureMessagesBounded | pkixssh-12.5.1/auth2.c:358-453 | every run sends at most as many failure messages as the retained lists have items, plus max_authtries |
| AuthRuns.AbortsExactly | pkixssh-12.5.1/auth2.c:677-700 | the "not in AuthenticationMethods" abort happens if and only if no current list starts with what succeeded |
| AuthRuns.NoRunAborts | pkixssh-12.5.1/auth2.c:677-700 | with devices configured for keyboard-interactive only, no run reaches it |
| AuthRuns.DeviceItemAborts | pkixssh-12.5.1/auth2.c:460-478 | without that restriction it is reached: a device item of another method lets the method run and then refuses its success |
| AuthObject.CheckMethods | pkixssh-12.5.1/auth2.c:531-571 | a list is usable if and only if it is not empty and every item names an enabled method |
| AuthObject.Authctxt.SetupMethodsLists | pkixssh-12.5.1/auth2.c:580-617 | keeps exactly the usable lists, in order, and fails if none is left of a non-empty configuration |
| AuthObject.Authctxt.RemoveMethodAt | pkixssh-12.5.1/auth2.c:651-669 | edits one list in place as specified |
| AuthObject.Authctxt.UpdateMethodsLists | pkixssh-12.5.1/auth2.c:677-700 | edits every list in place, stopping at the first that becomes empty |
| AuthHistory.EveryAnswer | pkixssh-12.5.1/auth2.c:266-453 | in every run and every configuration each reply is the one that the inputs and the replies so far call for: granted, partial, refused while the failures counted off the history stay below the limit, disconnected after that, aborted, postponed or closed |
| AuthHistory.GrantedWithoutLists | pkixssh-12.5.1/auth2.c:358-453 | without AuthenticationMethods access is granted if and only if a method that was run, or the response to it, is verified and not postponed for a valid user |
| AuthHistory.CountedIsRetained | pkixssh-12.5.1/auth2.c:580-617 | a configured list is retained if and only if it is usable, told by its items |
| AuthHistory.TwoFactors | pkixssh-12.5.1/auth2.c:358-453 | a run: the first factor is a partial success, the second grants |
| AuthHistory.OtherDevice | pkixssh-12.5.1/auth2.c:460-478 | and one where the second factor comes from another device and does not |
| AuthObject.Authctxt.UserauthFinish | pkixssh-12.5.1/auth2.c:358-453 | the reply, the counters and the lists after a method has run |
| AuthObject.Authctxt.MethodAllowed | pkixssh-12.5.1/auth2.c:460-478 | allowed if and only if some list starts with the method |
| AuthObject.Authctxt.BeginRequest | pkixssh-12.5.1/auth2.c:290-326 | the first request fixes user, service, validity and lists; later ones are refused exactly if user or service changed |
| AuthObject.Authctxt.TryRequest | pkixssh-12.5.1/auth2.c:340-349 | the method is tried exactly if it is offered and tries are left, and the result is finished |
| AuthObject.Authctxt.InputUserauthRequest | pkixssh-12.5.1/auth2.c:266-356 | one request, with the disconnects for no usable list and for a changed user or service |
| AuthObject.Authctxt.InputUserauthInfoResponse | pkixssh-12.5.1/auth2-chall.c:289-360 | the end of a keyboard-interactive exchange |
| AuthObject.HandleInput | pkixssh-12.5.1/auth2.c:266-356 | either input does what is specified |
| AuthObject.Dialogue | pkixssh-12.5.1/auth2.c:171-179 | inputs handled by the object one after the other form a run, up to the first that ends the dialogue |
| AuthObject.Authenticate | pkixssh-12.5.1/auth2.c:266-453 | for every configuration and sequence of inputs the replies of the object are those the history calls for, within the bound on failure messages |
| Lists.JoinSplit | pkixssh-12.5.1/auth2.c:531-571 | splitting at commas loses nothing |
| Lists.SplitJoin | pkixssh-12.5.1/auth2.c:531-571 | comma-free items are recovered from the list they form |
| BitmapSpec.CanonicalUnique | pkixssh-12.5.1/bitmap.c:167-186 | byte strings without leading zeros that stand for the same set are equal |
| BitmapSpec.ExportOfImport | pkixssh-12.5.1/bitmap.c:167-214 | export after import strips exactly the leading zero bytes |
| BitmapSpec.SetOne | pkixssh-12.5.1/bitmap.c:100-113 | or-ing one bit into its word adds exactly that number to the set |
| BitmapSpec.ClearOne | pkixssh-12.5.1/bitmap.c:125-138 | clearing one bit removes exactly that number |
| BitmapSpec.BytesEncode | pkixssh-12.5.1/bitmap.c:167-186 | the bytes up to the highest bit stand for the set, the first of them not zero |
| BitmapSpec.ExportIsReadable | pkixssh-12.5.1/bitmap.c:188-214 | an export is short enough to be imported if and only if the number at the limit is not in the set |
| BitmapObject.Bitmap.constructor | pkixssh-12.5.1/bitmap.c:37-51 | a new bitmap is the empty set |
| BitmapObject.Bitmap.Zero | pkixssh-12.5.1/bitmap.c:64-69 | empties the set |
| BitmapObject.Bitmap.TestBit | pkixssh-12.5.1/bitmap.c:71-79 | membership |
| BitmapObject.Bitmap.Reserve | pkixssh-12.5.1/bitmap.c:81-98 | grows the words without changing the set, up to the limit |
| BitmapObject.Bitmap.SetBit | pkixssh-12.5.1/bitmap.c:100-113 | adds a number, refused exactly beyond the limit |
| BitmapObject.Bitmap.Retop | pkixssh-12.5.1/bitmap.c:116-123 | moves top to the highest non-zero word |
| BitmapObject.Bitmap.ClearBit | pkixssh-12.5.1/bitmap.c:125-138 | removes a number |
| BitmapObject.Bitmap.Nbits | pkixssh-12.5.1/bitmap.c:140-159 | one more than the largest member |
| BitmapObject.Bitmap.Nbytes | pkixssh-12.5.1/bitmap.c:161-165 | that many bits in bytes, rounded up |
| BitmapObject.Bitmap.ToString | pkixssh-12.5.1/bitmap.c:167-186 | the shortest big-endian form, or a refusal exactly when the buffer is too small |
| BitmapObject.Bitmap.ReadBytes | pkixssh-12.5.1/bitmap.c:202-211 | the import loop puts every byte at its place |
| BitmapObject.Bitmap.FromString | pkixssh-12.5.1/bitmap.c:188-214 | the set the string stands for, refused exactly if it is too long |
| BitmapObject.Export | pkixssh-12.5.1/bitmap.c:167-186 | into a buffer of the announced size the export always fits and starts with a nonzero byte; it is short enough to be imported if and only if the limit is not a member |
| BitmapObject.Reimport | pkixssh-12.5.1/bitmap.c:167-214 | writing a bitmap out and reading it into another succeeds if and only if the limit is not a member, and then gives the same set |
| BitmapObject.LimitIsNotReadBack | pkixssh-12.5.1/bitmap.c:188-214 | a bitmap that holds the limit is refused |
| BitmapObject.WriteOne | pkixssh-12.5.1/bitmap.c:100-186 | the string of a single number n is 1 << n, big-endian, for n up to 16777216 and no further |
| BitmapSpec.OneNumber | pkixssh-12.5.1/bitmap.c:166-186 | the only string without leading zeros that stands for {n} is that number |
| BitmapObject.Canonicalise | pkixssh-12.5.1/bitmap.c:167-214 | reading a string and writing it out again gives the string without its leading zeros |
| KeyStream.SelfInverse | pkixssh-12.5.1/chacha.c:89-219 | encrypting twice from the same state gives the message back |
| KeyStream.WithTwice | pkixssh-12.5.1/chacha.c:184-188 | advancing the 64-bit counter in two steps is advancing it once, wrap-around included |
| KeyStream.CryptSplits | pkixssh-12.5.1/chacha.c:89-219 | a whole number of blocks and the rest, each from its own state, equal the whole |
| KeyStream.SplitsCompose | pkixssh-12.5.1/chacha.c:89-219 | block-aligned splits compose, in output and in the state left behind |
| ChaChaSpec.XorBytes | pkixssh-12.5.1/chacha.c:167-205 | xor of little-endian words is xor of their bytes |
| ChaChaRounds.RotlBit | pkixssh-12.5.1/chacha.c:24-25 | rotation moves every bit up cyclically |
| ChaChaRounds.QuarterUndone | pkixssh-12.5.1/chacha.c:46-50 | a quarter round can be undone |
| ChaChaRounds.QuarterInjective | pkixssh-12.5.1/chacha.c:46-50 | so no two inputs are confused |
| ChaChaRounds.QuarterRoundLines | pkixssh-12.5.1/chacha.c:46-50 | the four statements of the macro compute the specified quarter round |
| ChaChaRounds.RoundsInjective | pkixssh-12.5.1/chacha.c:140-149 | any number of double rounds loses nothing |
| ChaChaRounds.TwentyRoundsInjective | pkixssh-12.5.1/chacha.c:140-149 | the twenty rounds of ChaCha20 are injective on states |
| ChaChaRounds.QuarterLines | pkixssh-12.5.1/chacha.c:46-50 | one line of the loop, by the statements of the macro |
| ChaChaObject.RunDoubleRound | pkixssh-12.5.1/chacha.c:141-148 | the eight lines are a column round and a diagonal round |
| ChaChaObject.TwentyRounds | pkixssh-12.5.1/chacha.c:140-149 | the loop, executing the statements of the macro, computes the ten double rounds |
| ChaChaObject.ComputeBlock | pkixssh-12.5.1/chacha.c:124-165 | the block function |
| ChaChaObject.EncryptBlock | pkixssh-12.5.1/chacha.c:167-205 | one block of output is message xor key stream, also in place |
| ChaChaObject.Increment | pkixssh-12.5.1/chacha.c:184-188 | the carry from word 12 to word 13 |
| ChaChaObject.EncryptTail | pkixssh-12.5.1/chacha.c:118-214 | the partial last block through the temporary buffer |
| ChaChaObject.BlockOfCrypt | pkixssh-12.5.1/chacha.c:167-205 | block k of the output is that stretch of the message under key block start + k |
| ChaChaObject.EncryptRounds | pkixssh-12.5.1/chacha.c:117-218 | after every round of the loop exactly the blocks so far are done, in both buffers |
| ChaChaObject.EncryptLoop | pkixssh-12.5.1/chacha.c:89-219 | the block loop produces the first bytes of message xor key stream and stops with the right counter |
| ChaChaObject.ChachaCtx.KeySetup | pkixssh-12.5.1/chacha.c:55-78 | constants and key words for both key lengths |
| ChaChaObject.ChachaCtx.IvSetup | pkixssh-12.5.1/chacha.c:80-87 | counter and nonce words |
| ChaChaObject.ChachaCtx.EncryptBytes | pkixssh-12.5.1/chacha.c:89-219 | byte i becomes m[i] xor byte i mod 64 of the block at counter start + i/64, nothing else in the buffer changes, and the stored counter is start + ceil(n/64) mod 2^64, for every length and in place |
| ChaChaObject.Encrypt20 | pkixssh-12.5.1/chacha.c:55-219 | byte i of the result is byte i of the message xor byte i mod 64 of the ChaCha20 block of the state written out: constant text, key, block number counter + i / 64, nonce |
| ChaChaKnown.KnownQuarterRound | pkixssh-12.5.1/chacha.c:46-50 | the quarter round on the example of section 2.1.1 of RFC 8439 |
| ChaChaKnown.BlockWord | pkixssh-12.5.1/chacha.c:117-176 | each word of a block, read little-endian, is that word after ten column and diagonal rounds on the written-out indices, plus the state |
| ChaChaKnown.PrimedAt | pkixssh-12.5.1/chacha.c:55-87 | the state for byte i of the key stream, written out word by word |
| ChaChaKnown.Le32Is | pkixssh-12.5.1/chacha.c:27-31 | words are loaded least significant byte first |
| ChaChaKnown.Le32OfBytes | pkixssh-12.5.1/chacha.c:33-39 | and stored so |
| ChachaPolySpec.OpenOfSeal | pkixssh-12.5.1/cipher-chachapoly.c:66-119 | decrypting what was encrypted gives back header and payload for every key, sequence number and length |
| ChachaPolySpec.SealOfOpen | pkixssh-12.5.1/cipher-chachapoly.c:66-119 | and only that: a packet that opens is the seal of what it opens to |
| ChachaPolySpec.LengthOfSeal | pkixssh-12.5.1/cipher-chachapoly.c:122-135 | the length read ahead is the length that was sealed |
| ChachaPolySpec.PolyKeyIsBlock | pkixssh-12.5.1/cipher-chachapoly.c:78-85 | encrypting zeros at counter 0 yields the first 32 bytes of the block |
| ChachaPolySpec.SealIsSealed | pkixssh-12.5.1/cipher-chachapoly.c:66-119 | every sealed packet has the written-out layout |
| ChachaPolySpec.KeyBlockReused | pkixssh-12.5.1/cipher-chachapoly.c:66-119 | payload byte i uses the block that keys the tag if and only if the counter has wrapped around to it |
| ChachaPolySpec.KeyBlockIsFresh | pkixssh-12.5.1/cipher-chachapoly.c:66-119 | so with a 32-bit length it never does |
| ChachaPolyObject.ChachapolyCtx.constructor | pkixssh-12.5.1/cipher-chachapoly.c:37-49 | the two halves of the key go to the payload and the header cipher |
| ChachaPolyObject.NewChachapoly | pkixssh-12.5.1/cipher-chachapoly.c:37-49 | ChaCha20 contexts for a 64-byte key; any other key length is refused |
| ChachaPolyObject.ChachapolyCtx.DerivePolyKey | pkixssh-12.5.1/cipher-chachapoly.c:66-85 | the one-time key is the first 32 bytes of the block of the main key at counter 0 |
| ChachaPolyObject.ChachapolyCtx.CryptBoth | pkixssh-12.5.1/cipher-chachapoly.c:97-106 | header and payload, each with its own cipher |
| ChachaPolyObject.ChachapolyCtx.Encrypt | pkixssh-12.5.1/cipher-chachapoly.c:66-119 | the buffer holds the sealed packet and is otherwise unchanged |
| ChachaPolyObject.ChachapolyCtx.Decrypt | pkixssh-12.5.1/cipher-chachapoly.c:66-119 | accepts exactly the packets that open; on a mismatch the destination is unchanged |
| ChachaPolyObject.ChachapolyCtx.PacketLength | pkixssh-12.5.1/cipher-chachapoly.c:122-135 | the decrypted header, refused exactly below four bytes |
| ChachaPolyObject.SealPacket | pkixssh-12.5.1/cipher-chachapoly.c:66-119 | the sealed packet written out: header under the second half of the key from block 0, payload under the first half from block 1, and the tag of both under the first 32 bytes of block 0 of the first half |
| ChachaPolyObject.OpenPacket | pkixssh-12.5.1/cipher-chachapoly.c:66-119 | the other opens it if and only if it ends in that tag of what comes before |
| ChachaPolyObject.Transport | pkixssh-12.5.1/cipher-chachapoly.c:66-119 | between two contexts with one key: the sealed packet is opened to what was sealed, and whatever else is opened is itself a seal |
| CbcSpec.DecryptEncrypt | pkixssh-12.5.1/cipher-aes.c:70-114 | decryption inverts encryption for any number of blocks |
| CbcSpec.EncryptDecrypt | pkixssh-12.5.1/cipher-aes.c:70-114 | and the other way round |
| CbcSpec.EncryptSplits | pkixssh-12.5.1/cipher-aes.c:70-114 | block-aligned splits of an encryption compose through the chaining value |
| CbcSpec.DecryptSplits | pkixssh-12.5.1/cipher-aes.c:70-114 | and of a decryption |
| CbcSpec.LastSplits | pkixssh-12.5.1/cipher-aes.c:70-114 | so does the chaining value itself |
| CbcSpec.DecryptAt | pkixssh-12.5.1/cipher-aes.c:104-110 | each plaintext block from its own and the previous ciphertext block only |
| CbcSpec.EncryptAt | pkixssh-12.5.1/cipher-aes.c:91-97 | each ciphertext block from its plaintext and the previous ciphertext block |
| CbcObject.CbcCtx.EncryptBlocks | pkixssh-12.5.1/cipher-aes.c:87-98 | the forward loop, also in place |
| CbcObject.CbcCtx.DecryptBlocks | pkixssh-12.5.1/cipher-aes.c:99-112 | the loop that runs from the last block backwards in place computes ordinary forward decryption |
| CbcObject.CbcCtx.Cbc | pkixssh-12.5.1/cipher-aes.c:70-114 | both directions, the chaining value left behind, the untouched rest of the buffer, and the partial-block error |
| CbcObject.CbcTwice | pkixssh-12.5.1/cipher-aes.c:70-114 | a buffer treated in two calls is treated as in one, and the chaining value too |
| CbcObject.Recover | pkixssh-12.5.1/cipher-aes.c:70-114 | a message encrypted in two calls by one context and decrypted in two calls of other sizes by another arrives |
| AtomicioSpec.RunBounds | pkixssh-12.5.1/atomicio.c:51-173 | progress never exceeds the buffer, a return other than 0 is the exact count, 0 hides a count only after a hard error, EFAULT never occurs |
| AtomicioSpec.RetriesAreInvisible | pkixssh-12.5.1/atomicio.c:69-80 | interruptions and full buffers leave no trace in result or data |
| AtomicioSpec.TransfersAddUp | pkixssh-12.5.1/atomicio.c:85-93 | with only transfers and retries, everything goes through if and only if enough was offered |
| Atomicio.Atomicio6 | pkixssh-12.5.1/atomicio.c:51-94 | refines the plain contract for every sequence of answers, in either direction; what went through is a prefix of the buffer |
| Atomicio.Skip | pkixssh-12.5.1/atomicio.c:150-155 | the inner loop skips exactly the completed entries |
| Atomicio.Advance | pkixssh-12.5.1/atomicio.c:148-165 | the remaining entries are exactly the bytes not yet transferred, and the fault branch is dead |
| Atomicio.Atomiciov6 | pkixssh-12.5.1/atomicio.c:105-173 | the same contract on the concatenation of the entries, in either direction, each byte once and in order; EINVAL for a bad count |
| Atomicio.NeverStopped | pkixssh-12.5.1/atomicio.c:51-94 | without a callback EINTR is never reported, and the full count is returned exactly when all went through |
| Atomicio.AtomicioPlain | pkixssh-12.5.1/atomicio.c:96-100 | returns the full count without error if and only if everything went through |
| Atomicio.Atomiciov | pkixssh-12.5.1/atomicio.c:175-180 | the same, except that for a vector with something to transfer it returns 0 without error if and only if the first entry is empty, and then nothing moves |
| Atomicio.EmptyEntryFirst | pkixssh-12.5.1/atomicio.c:128-172 | such a vector |
| AddrTheorems.WordMatches | pkixssh-12.5.1/addrmatch.c:149-170 | masking a word yields a network word exactly when their first bits agree |
| AddrTheorems.HostIsAll0sExactly | pkixssh-12.5.1/addrmatch.c:294-305 | the check by inverted mask holds exactly when the mask length is valid and every later bit is clear |
| AddrTheorems.CmpIsNumeric | pkixssh-12.5.1/addrmatch.c:190-193 | comparing byte by byte compares the numbers |
| AddrTheorems.CmpIsOrder | pkixssh-12.5.1/addrmatch.c:176-199 | IPv6 addresses are ordered by value, then by scope |
| AddrTheorems.CmpEqual | pkixssh-12.5.1/addrmatch.c:176-199 | 0 exactly for equal addresses of a known family |
| AddrTheorems.NetmatchExactly | pkixssh-12.5.1/addrmatch.c:348-361 | for a network that passed the check: 0 if and only if families agree, the first masklen bits agree and IPv6 scopes agree |
| AddrListSpec.ListMeaning | pkixssh-12.5.1/addrmatch.c:375-424 | unless a list has both an invalid entry and a negated hit: -2 if invalid, else -1 on a negated hit, else 1 on a hit, else 0 |
| AddrListSpec.ScanStopsAt | pkixssh-12.5.1/addrmatch.c:375-424 | in general the first entry that is invalid or a negated hit decides |
| AddrListSpec.OrderIrrelevant | pkixssh-12.5.1/addrmatch.c:375-424 | two lists with the same entries in any order and repetition give the same answer for every address |
| AddrListSpec.FirstDecides | pkixssh-12.5.1/addrmatch.c:375-424 | a first entry that is invalid or a negated hit decides the list, whatever follows |
| AddrListSpec.OrderMatters | pkixssh-12.5.1/addrmatch.c:375-424 | in front of any list, an invalid entry and a negated hit give -2 in one order and -1 in the other |
| AddrListSpec.OrderIrrelevantExactly | pkixssh-12.5.1/addrmatch.c:375-424 | for every list and address: the answer is independent of order and repetition if and only if the address cannot be parsed or the list does not hold both an invalid entry and a negated hit |
| AddrListSpec.MatchListMeaning | pkixssh-12.5.1/addrmatch.c:375-424 | -1 if some negated entry matches, else 1 if some other does, else 0 |
| AddrListSpec.NetworkEntry | pkixssh-12.5.1/addrmatch.c:311-361 | a parsed network entry matches exactly the hosts of its family that share its first bits |
| AddrNumbers.NetworkIsValid | pkixssh-12.5.1/addrmatch.c:294-305 | the host part check, by numbers: the mask fits and the address is divisible by 2^(width - mask) |
| AddrNumbers.InNetwork | pkixssh-12.5.1/addrmatch.c:348-361 | membership by numbers: same family, same quotient by 2^(width - mask), and for IPv6 the same scope |
| AddrNumbers.MaskedText | pkixssh-12.5.1/addrmatch.c:311-346 | what base/mask stands for, for every base, mask and outcome of the parsers |
| AddrNumbers.PlainText | pkixssh-12.5.1/addrmatch.c:311-346 | what text without a mask stands for |
| AddrNumbers.MaskedList | pkixssh-12.5.1/addrmatch.c:375-424 | the answer for the list base/mask or !base/mask: -2, 0, 1 or -1, by numbers |
| AddrNumbers.PlainList | pkixssh-12.5.1/addrmatch.c:375-424 | the answer for a single address or wildcard, negated or not |
| AddrNumbers.NothingToMatch | pkixssh-12.5.1/addrmatch.c:375-424 | 0 for what is no address, -2 for an empty entry, negated or not |
| AddrObject.Netmask6 | pkixssh-12.5.1/addrmatch.c:132-139 | the loop that fills the mask words |
| AddrObject.AddrNetmask | pkixssh-12.5.1/addrmatch.c:116-143 | the mask of a valid length, -1 otherwise |
| AddrObject.AddrAnd | pkixssh-12.5.1/addrmatch.c:149-170 | word-wise and, keeping family and scope of the first operand |
| AddrObject.AddrInvert | pkixssh-12.5.1/addrmatch.c:232-251 | word-wise complement in place |
| AddrObject.AddrIsAll0s | pkixssh-12.5.1/addrmatch.c:270-286 | whether every used word is zero |
| AddrObject.AddrHostIsAll0s | pkixssh-12.5.1/addrmatch.c:294-305 | the composed host-part check |
| AddrObject.AddrCmp | pkixssh-12.5.1/addrmatch.c:176-199 | the byte loop implements the specified comparison |
| AddrObject.AddrNetmatch | pkixssh-12.5.1/addrmatch.c:348-361 | the composed network test |
| AddrObject.AddrPtonCidr | pkixssh-12.5.1/addrmatch.c:311-346 | not a network, inconsistent, or a network that passed the check |
| AddrObject.AddrMatchList | pkixssh-12.5.1/addrmatch.c:375-424 | the strsep loop computes the specified answer |
| Utf8.GetcOfEncode | pkixssh-12.5.1/a_utf8.c:30-117 | a written value is read back, whatever follows it |
| Utf8.EncodeOfGetc | pkixssh-12.5.1/a_utf8.c:30-117 | what is accepted is the encoding of what it was read as |
| Utf8.AcceptedExactly | pkixssh-12.5.1/a_utf8.c:30-117 | accepted if and only if the bytes begin with the encoding of a value below 2^31 |
| Utf8.RoundTripExactly | pkixssh-12.5.1/a_utf8.c:127-191 | write then read returns the value if and only if it is below 2^31 |
| Utf8.NotReadBack | pkixssh-12.5.1/a_utf8.c:127-191 | 2^31 is not read back |
| Utf8.CutShort | pkixssh-12.5.1/a_utf8.c:30-117 | every proper prefix of a character is reported as too short |
| Utf8.DecodeOfEncode | pkixssh-12.5.1/a_utf8.c:30-191 | any sequence of code points, encoded and concatenated, decodes to itself |
| Utf8.EncodeOfDecode | pkixssh-12.5.1/a_utf8.c:30-191 | any fully accepted string re-encodes to the same bytes |
| Utf8.UniquelyDecodable | pkixssh-12.5.1/a_utf8.c:127-191 | no byte string encodes two texts |
| Utf8Object.HighMasks | pkixssh-12.5.1/a_utf8.c:40-112 | the mask tests on a first byte decide its length class |
| Utf8Object.LowMasks | pkixssh-12.5.1/a_utf8.c:40-112 | the masks leave exactly the value bits |
| Utf8Object.ReadChar | pkixssh-12.5.1/a_utf8.c:30-117 | UTF8_getc with its masks, shifts and early returns: the length or the code -1 to -4 of the specified decoder, and on success its value |
| Utf8Object.EncodedBytes | pkixssh-12.5.1/a_utf8.c:133-190 | the bytes of each branch, by shifts, masks and marks, are the encoding |
| Utf8Object.Putc | pkixssh-12.5.1/a_utf8.c:127-191 | -1 exactly if the buffer is too small; otherwise the encoding at its front and the rest unchanged |
| AuthOptTheorems.StringRoundTrip | pkixssh-12.5.1/sshbuf-getput-basic.c:239-268 | a string that fits is read back and exactly the rest is left |
| AuthOptTheorems.CStringRoundTrip | pkixssh-12.5.1/sshbuf-getput-basic.c:270-303 | the same for a string without NUL |
| AuthOptTheorems.NullableRoundTrip | pkixssh-12.5.1/auth-options.c:739-761 | NULL and the empty string stay apart |
| AuthOptTheorems.ArrayRoundTrip | pkixssh-12.5.1/auth-options.c:670-737 | arrays of every length that fits |
| AuthOptTheorems.ReadBack | pkixssh-12.5.1/auth-options.c:763-869 | every record that fits is read back with its flags reduced to a byte and a tunnel below -1 read as 0; exactly the bytes after it are left |
| AuthOptTheorems.RoundTripExactly | pkixssh-12.5.1/auth-options.c:763-869 | a record survives unchanged if and only if its flags are bytes and its tunnel number is at least -1 |
| AuthOptTheorems.TunnelIsLost | pkixssh-12.5.1/auth-options.c:780-784 | a record with a tunnel number of -2 does not survive |
| AuthOptTheorems.UntrustedReadsMasked | pkixssh-12.5.1/auth-options.c:786-804 | the untrusted form depends on flags, expiry and tunnel only and reads back as the masked record |
| AuthOptWire.WireFormat | pkixssh-12.5.1/auth-options.c:763-808 | the bytes of a record, written out field by field in order |
| AuthOptWire.UntrustedText | pkixssh-12.5.1/auth-options.c:786-804 | an untrusted reader is told "yes", "true" and nothing else |
| AuthOptWire.CutShort | pkixssh-12.5.1/auth-options.c:810-869 | every proper prefix of a record is refused as incomplete |
| AuthOptWire.CStringExactly | pkixssh-12.5.1/sshbuf-getput-basic.c:270-303 | what becomes of any bytes: a NUL is tolerated and dropped exactly at the end |
| AuthOptWire.TooLarge | pkixssh-12.5.1/sshbuf-getput-basic.c:239-268 | a length beyond the limit is refused, whatever follows |
| AuthOptWire.NullableExactly | pkixssh-12.5.1/auth-options.c:750-761 | any flag but 0 means absent |
| AuthOptWire.ListExactly | pkixssh-12.5.1/auth-options.c:698-737 | bytes after the announced strings are skipped |
| AuthOptWire.TooMany | pkixssh-12.5.1/auth-options.c:698-737 | a count beyond INT_MAX is refused |
| AuthOptObject.Sshbuf.Put | pkixssh-12.5.1/sshbuf-getput-basic.c:325-336 | appends if and only if it fits |
| AuthOptObject.Sshbuf.PutCString | pkixssh-12.5.1/sshbuf-getput-basic.c:513-535 | appends length and bytes if and only if they fit |
| AuthOptObject.Sshbuf.PeekString | pkixssh-12.5.1/sshbuf-getput-basic.c:239-268 | the string at the front, too large or incomplete; nothing is consumed |
| AuthOptObject.Sshbuf.TakeString | pkixssh-12.5.1/sshbuf-getput-basic.c:213-237 | consumes one string, or reports an error and consumes nothing |
| AuthOptObject.Sshbuf.TakeCString | pkixssh-12.5.1/sshbuf-getput-basic.c:270-303 | the same, tolerating a NUL only as the last byte; every error consumes nothing |
| AuthOptObject.SerialiseNullable | pkixssh-12.5.1/auth-options.c:739-748 | flag and string |
| AuthOptObject.DeserialiseNullable | pkixssh-12.5.1/auth-options.c:750-761 | NULL exactly if the flag is set |
| AuthOptObject.SerialiseArray | pkixssh-12.5.1/auth-options.c:670-696 | count and blob, if and only if they fit |
| AuthOptObject.DeserialiseArray | pkixssh-12.5.1/auth-options.c:698-737 | the announced number of strings from the blob, with every error |
| AuthOptObject.Serialise | pkixssh-12.5.1/auth-options.c:763-808 | appends the whole record if and only if it fits, and a first part of it otherwise |
| AuthOptObject.Deserialise | pkixssh-12.5.1/auth-options.c:810-869 | the record at the front of the buffer, or the first error |
| ConfirmRuns.RegisterAppends | pkixssh-12.5.1/clientloop.c:738-757 | a registration goes to the end of the queue that is meant, and is fatal if and only if it would make a run of INT_MAX |
| ConfirmRuns.UnrefDequeues | pkixssh-12.5.1/clientloop.c:449-465 | dropping a reference removes exactly the front |
| ConfirmRuns.ReplyKeepsInv | pkixssh-12.5.1/clientloop.c:449-465 | a reply, with whatever its callback registers, keeps the order |
| ConfirmRuns.RepliesInOrder | pkixssh-12.5.1/clientloop.c:449-483 | over every run: registered = answered followed by what is queued, counts at least 1, neighbours distinct |
| ConfirmRuns.KthReply | pkixssh-12.5.1/clientloop.c:449-465 | the k-th answered reply stands for the k-th registration |
| ConfirmRuns.Canonical | pkixssh-12.5.1/clientloop.c:738-757 | the compressed queue is determined by the plain one |
| ConfirmObject.Client.RegisterGlobalConfirm | pkixssh-12.5.1/clientloop.c:738-757 | coalesces with the last entry or appends |
| ConfirmObject.Client.GlobalRequestReply | pkixssh-12.5.1/clientloop.c:449-465 | invokes the oldest callback and removes one registration, whatever the callback registers meanwhile |
| ConfirmObject.Client.ServerAliveCheck | pkixssh-12.5.1/clientloop.c:467-483 | gives up after too many silent rounds, otherwise queues one placeholder, and is fatal exactly if that would make a run of INT_MAX |
| ConfirmObject.Client.Handle | pkixssh-12.5.1/clientloop.c:449-483 | one event on the object is the specified step |
| ConfirmObject.Client.Converse | pkixssh-12.5.1/clientloop.c:449-483 | a session handled by the object is a run, up to giving up or a fatal overflow, and what was answered is a prefix of what was registered |

## Left out

- Datagram, filtered, X11-spoofed and SOCKS-phase channels in the flow-control theorems: they put bytes in buffers that the windows do not count.
- Pseudo-terminal echo simulation; what CHAN_LOCAL changes outside chan_is_dead. `NetworkObject.Network` has no zombies, local channels, detach callbacks, odd type codes or SSH_BUG_EXTEOF, which the methods of `ChannelObject.Channel` do have.
- ChannelObject.Channel.RegisterFds: models the extended descriptor and its usage; the read, write and socket descriptors, nonblocking mode and the terminal flag are not part of the channel's state here.
- The open-failure reply outside the multiplexing proxy.
- Sockets and timing: the event loop may take any enabled action, so every schedule is covered.
- Parsing and building of multiplexing messages and global requests: the proxy receives parsed messages.
- Object addresses are numbers that are never reused; use of freed memory is not modelled.
- GSSAPI, PAM and the individual authentication methods: what they answer is an input.
- Delays, logging and memory allocation failure everywhere.
- Poly1305 and the AES block function are parameters.
- Numeric address parsing, strtoul and match_pattern are parameters; addr_match_cidr_list is easier than addr_match_list and omitted.
- A system call that claims to have moved more than atomicio6 or atomiciov6 asked for.
- sshauthopt_merge and sshauthopt_parse: field-by-field branches.
- The counter modes, the digest block functions and the cipher tables: easier than what is here.
- ConfirmRuns.KthReply: counts answered replies; a reply that finds the queue empty is ignored by the code and not counted.
- MuxObject.Channels.ChannelFree: the descriptors, pending confirmations and forwarding permissions that are released with a channel are not part of the table.
- MuxObject.Channels.ProxyDownstream: takes a parsed message, so the errors of parsing one are not modelled; nor are the permissions that tcpip-forward requests record.
- MuxObject.Channels.ProxyUpstream: message types that the proxy leaves to the ordinary handlers are not modelled.
- AuthObject.Authctxt.UserauthFinish: the refusal of root is part of the `authenticated` input; the PAM account check, which is fatal, and failures the server itself caused, which GSSAPI does not count, are not modelled.
- AuthObject.Authctxt.InputUserauthInfoResponse: models the call of userauth_finish at the end of the exchange; answers go to the device, whose verdict is an input.
