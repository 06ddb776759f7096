# G-Tun in Dafny

G-Tun is a tunnel: a client and a server authenticate each other with a shared token, the
server announces which transport to use, and application traffic is relayed to a target over
that transport. This project models the stateful parts of it and proves what they keep over
every run: the UDP relay, the handshake and the control message, the shared mux session, the
byte-stream relays, the client's supervisor and the server's authentication gate.

Three kinds of module work together.

- *Transition systems.* Each concurrent component is a state, an `Event` datatype, a predicate
  `Enabled` and a function `Apply`; one event is one block under the component's mutex, or one
  effect outside it. A run is any finite trace of such steps (`Runs.IsRun`), so a theorem about
  every index of every run holds for any number of goroutines in any interleaving. The
  invariants are in the same module, with one lemma per kind of step.
- *Objects and loops.* The same blocks are written as Go has them, on classes with fields, maps,
  arrays and loops (`UdpTable.UdpSessions`, `DialerObject.SessionDialer`, `Runner.RunnerObject`,
  `WsConn.Reader`, `CopyHalf.Copy`, `Streams.Conn`), and each method's `ensures` ties the new
  fields to the functions or the steps of the transition system.
- *Byte level.* `Mac`, `Handshake`, `Control` and `Datagrams` treat messages as byte strings
  read from streams of arbitrary chunking. `HandshakeRuns`, `ControlRuns` and `GateRuns` show that each half of
  a call at this level, before and after it waits for the other side, is a stretch of a run of
  the protocol at the level above, whatever others do in between, and that calls succeed there.

| file | contents |
|---|---|
| `Runs.dfy`, `Bytes.dfy` | runs of a transition system; bytes and concatenation |
| `Mac.dfy`, `Streams.dfy`, `Handshake.dfy`, `Control.dfy`, `Datagrams.dfy` | wire formats, signing, and the code that reads and writes them |
| `Agreement.dfy`, `HandshakeRuns.dfy`, `ControlRuns.dfy`, `ControlLoop.dfy` | all handshakes and control sessions at once; the link to the code; one control connection end to end |
| `UdpTable.dfy`, `UdpRelay.dfy`, `UdpLoops.dfy`, `UdpTunnel.dfy`, `UdpTiming.dfy` | one relay's table, all its interleavings, its loops, two relays composed, idle timing |
| `Dialer.dfy`, `DialerObject.dfy` | shared sessions and their carriers |
| `Pipe.dfy`, `CopyHalf.dfy`, `StreamTunnel.dfy`, `WsConn.dfy` | one relay, its loop, two relays joined by a stream, streams over WebSocket |
| `Runner.dfy`, `Backoff.dfy` | one transport at a time; retry delays |
| `Gate.dfy`, `GateRuns.dfy` | no target dial before authentication; the link to the handlers |

## Assumptions

- The message authentication code is an arbitrary function to 32 bytes. Where a result needs
  that nothing is forged, the verification step carries `NoForgery`: if a tag verifies, some
  honest party computed the code over exactly that byte string under that token. Everything the
  program feeds to the code counts as such a computation, datagrams and key derivation included.
- A nonce that a party chooses has not been chosen or received by anyone in the run before.
- JSON is an abstract codec; acceptable configurations survive a round trip, and a body is at
  most 4096 bytes where the result says so.
- The local addresses of dialled UDP sockets are not reused. Outsiders may send from any of the
  relays' own addresses in `tun.forgeable`; each routing result says which must not be there.
- The clock does not step back: time stamps are wall-clock nanoseconds in the program
  (internal/transport/udp.go:47, 138), and `UdpRelay` and `UdpTiming` let time only pass.
- The network loses, repeats, reorders, alters and invents whatever it likes, except in the
  completeness results, which state the reliable streams they need.

## Where the code does less than one might expect

The model follows the code; each of these is a lemma, and the exact condition is proved beside it.

- A session that a datagram has just been matched with can be unmapped before it is touched. A
  sweep does that in some run exactly if more than three minutes lie between its last touch and
  this one (`UdpRelay.FoundIsSparedIff`; `UdpRelay.FoundSessionCanBeSwept` is an old session
  found just before a tick). Its own pump can do it at any time, when its socket fails
  (`UdpRelay.FoundSessionCanBeRemoved`). The datagram still never reaches another peer
  (`UdpRelay.NoCrossing`).
- When the read loop leaves on an error before the context is done, nothing closes the listener
  any more (`UdpRelay.ListenerLeftOpen` is such a run); if the context was done, it is closed or
  about to be. `UdpRelay.ListenerAfterReturn` has both directions.
- A sealed datagram does not name its session. Replies reach only the application that asked, in
  every run, if and only if outsiders cannot use the server's listening address
  (`UdpTunnel.RepliesRoutedIff`), and what the target gets on the sessions of a client socket
  comes from that socket's application if and only if outsiders cannot use that socket's address
  (`UdpTunnel.RequestsRoutedIff`). Whatever they use, the payloads themselves are genuine
  (`UdpTunnel.TargetGetsOnlyAppPayloads`, `UdpTunnel.AppsGetOnlyTargetPayloads`).
- The comment on `muxStream` (internal/transport/session.go:154-158) says that Pipe closes the
  whole stream as soon as either side is done, and loses nothing already sent. Between a TCP
  connection and a mux stream, the stream's end leaves Pipe waiting for the TCP peer
  (`Pipe.StreamEndLeavesPipeWaiting`, with the exact condition in `Pipe.OtherDirectionWaitsIff`),
  and the TCP connection's end can discard bytes that had arrived on the stream
  (`Pipe.ArrivedCanBeLost`): a direction is complete on every return if and only if its source
  has CloseWrite (`Pipe.CompleteIffSourceHalfCloses`). End to end, everything an application
  sends reaches the target, on every return without a network error, if and only if the
  application's connection and the server's end of the stream have it
  (`StreamTunnel.EverythingArrivesIff`), so not over smux or WebSocket streams.
- Even when a direction towards an end without CloseWrite is done, Pipe can wait for ever: the
  other direction may be in a write to a peer that does not read, and no write has a deadline
  (`Pipe.BlockedWriteHoldsPipe`). It returns without anything more from the peers if and only if
  that peer takes what is in hand (`Pipe.ReturnsAloneIff`).
- A failed apply has stopped the old transport first (`Runner.FailedApplyHasStopped`).

## Model

| member | source | states |
|---|---|---|
| Mac.Unambiguous | internal/auth/auth.go:43-60 | unframed concatenation is unambiguous: over all nonces, channels, bodies, directions, payloads and purposes, two byte strings that are hashed are equal only if label and every part are |
| Mac.TranscriptInjective | internal/auth/auth.go:113-117 | a channel determines both nonces |
| Mac.SignParts | internal/auth/auth.go:43-50 | feeding the label and then each part to a running hash signs their concatenation, in this order |
| Mac.VerifyParts | internal/auth/auth.go:53-55 | a tag is accepted if and only if it is the code over label and parts |
| Mac.TagsTellInputs | internal/auth/auth.go:43-50 | for any two different inputs there is a code under which even their truncated tags differ: a tag covers all of its input |
| Streams.Conn.ReadFull | internal/auth/auth.go:71-74 | the loop consumes exactly the bytes asked for under any chunking, or reports an error with the stream used up |
| Streams.Conn.Read | internal/control/control.go:63-66 | one read puts the next bytes of the stream behind those already in the buffer, which it leaves alone, and takes them off the stream |
| Handshake.ClientHandshake | internal/auth/auth.go:63-85 | the stepwise client on a chunked connection, signing label and parts, does what the client specification says of the unchunked stream: result, bytes consumed, bytes written |
| Handshake.ClientOutcome | internal/auth/auth.go:63-85 | for every input: the client's proof is written if and only if a correct reply has come (and the writes succeed); otherwise its nonce at most; and which error is reported when |
| Handshake.ServerOutcome | internal/auth/auth.go:88-111 | for every input: the reply is written if and only if a nonce has come (and the write succeeds), and nothing else ever; and which error is reported when |
| Handshake.ServerHandshake | internal/auth/auth.go:88-111 | likewise for the server, all four error exits included |
| Handshake.ServerAcceptsExactly | internal/auth/auth.go:88-111 | a server accepts if and only if its stream starts with some nonce and the proof for that nonce and its own, and then it has consumed those 64 bytes and written one reply |
| Handshake.ClientAcceptsExactly | internal/auth/auth.go:63-85 | a client accepts if and only if its stream starts with a reply to its own nonce |
| Handshake.HandshakeCompletes | internal/auth/auth.go:63-117 | with equal tokens and streams that carry what the other side writes, both sides get the same channel and leave every later byte unread |
| Handshake.WrongReplyRejected | internal/auth/auth.go:77-79 | a server whose token signs differently is rejected |
| Control.EqualIsEquality | internal/control/control.go:29-37 | Equal holds exactly of equal configurations, hence is an equivalence |
| Control.Uint16RoundTrip | internal/control/control.go:52-53 | the two-byte length is lossless exactly below 65536 |
| Control.Send | internal/control/control.go:43-59 | the frame built in place and by appending is length, body and tag; encoding failures and oversized bodies write nothing |
| Control.Receive | internal/control/control.go:62-93 | on a chunked stream, the result and the bytes consumed are those of the specification, every error exit included |
| Control.FrameOpens | internal/control/control.go:43-93 | a frame is taken apart exactly where it was put together and what follows is left |
| Control.ReceiveAcceptsExactly | internal/control/control.go:62-93 | a configuration is accepted if and only if the stream starts with a frame authenticated for this very channel whose body decodes to it and it is acceptable |
| Control.Parse | internal/proto/proto.go:26-35 | the search finds exactly the supported names |
| Control.Validate | internal/config/config.go:47-57 | the branches refuse exactly the KCP settings that are not valid |
| Control.RefusedExactly | internal/control/control.go:84-91 | an authenticated configuration is refused if and only if it names none of the ten protocols or its KCP settings have a window or interval that is not positive or a negative number of shards |
| Control.ErrorsExactly | internal/control/control.go:62-93 | which error Receive reports when: a length over the limit is refused before anything more is read, and a body is decoded only if its tag is right |
| Control.SessionCompletes | internal/control/control.go:43-93 | handshake and announcement together: the client gets a configuration Equal to the announced one and later bytes stay intact |
| ControlLoop.RunControl | internal/client/client.go:82-97 | the runner is told exactly what an authenticated frame said, and is left as it is otherwise, its transport running; established if and only if the announcement could be applied |
| ControlLoop.HandleControl | internal/server/server.go:96-104 | on a chunked stream, the handshake and then the announcement have the result, consumption and output of the session's specification |
| ControlLoop.AnnouncesExactlyIfProven | internal/server/server.go:96-104 | the announcement is sent if and only if the stream starts with a correct proof (and the frame can be made and written); then the output is exactly reply and frame, and otherwise the reply at most |
| ControlLoop.AppliedIsRunning | internal/client/runner.go:39-85 | a successful apply leaves one live transport, with these settings, the old one exactly if it fits |
| ControlLoop.AnnouncedIsRunning | internal/client/client.go:67-104 | end to end: afterwards the client runs exactly what the server announced; reconnecting to the same announcement interrupts nothing |
| Agreement.StepKeepsSigned | internal/auth/auth.go:43-117 | every step keeps: a signed string comes from the one party, in the one state, that signs it |
| Agreement.StepKeepsNonces | internal/auth/auth.go:63-111 | every step keeps: honest nonces are distinct and order the runs that hold them |
| Agreement.StepKeepsInv | internal/auth/auth.go:63-117 | every step of any run, with any bytes from the network, keeps the whole invariant |
| Agreement.PartnersUnique | internal/auth/auth.go:113-117 | two matched pairs share a client run exactly if they share a server run |
| Agreement.ServerAgreement | internal/auth/auth.go:88-111 | over all interleavings: each accepting server run is matched by exactly one client run that verified and signed the same nonces under the same token, in the right order of time, shared with no other server run |
| Agreement.ClientAgreement | internal/auth/auth.go:63-85 | each client run that verified a server is matched by exactly one server run that chose its nonce in reply, shared with no other client run |
| Agreement.ControlAgreement | internal/client/client.go:82-97 | what a client run applies was decoded from the very bytes its one matched server run had announced before, for this same handshake, so with a codec that round-trips the two are Equal |
| HandshakeRuns.ServerCallStarts | internal/auth/auth.go:88-101 | a call of the server handshake that has read a nonce and drawn its own extends any protocol run by a server run that has replied and signed, even if the write fails; any other call returns an error and is no run |
| HandshakeRuns.ServerCallEnds | internal/auth/auth.go:103-110 | after anything that others have done since, the server run accepts if and only if the call returns a channel, which is its two nonces |
| HandshakeRuns.ClientCallStarts | internal/auth/auth.go:64-70 | a call of the client handshake that has drawn a nonce starts a client run |
| HandshakeRuns.ClientCallEnds | internal/auth/auth.go:72-84 | after anything that others have done since, the client run is established if and only if the call returns a channel, and has verified the server if and only if a correct reply came, whether or not its proof could be written |
| HandshakeRuns.HandshakeIsARun | internal/auth/auth.go:63-117 | from any run, over reliable streams and with fresh nonces, the two calls are a run in which both succeed with the same channel and are each other's match |
| ControlRuns.SendCallIsARun | internal/control/control.go:43-59 | a call of Send is the announcement of its server run, exactly if the configuration can be framed |
| ControlRuns.ReceiveCallIsARun | internal/control/control.go:62-93 | a call of Receive, whatever it reads, is the client run applying exactly what the call returns |
| ControlRuns.SessionIsARun | internal/client/client.go:82-97 | a whole control session is a run in which the client applies what its match announced |
| Datagrams.OpensExactlySealed | internal/auth/datagram.go:22-40 | opening yields a payload if and only if the packet is that payload sealed for the same direction |
| Datagrams.ReflectedRejected | internal/auth/datagram.go:31-48 | a packet sealed for one direction opens in the other exactly if the truncated tags coincide |
| Datagrams.SealDatagram | internal/auth/datagram.go:22-27 | tag and payload are copied into one fresh buffer |
| Datagrams.OpenDatagram | internal/auth/datagram.go:31-40 | the length check and the tag comparison accept exactly what opens |
| Datagrams.TagCoversAll | internal/auth/datagram.go:42-48 | a packet whose payload or direction is not the one its tag was made for is refused under some code: nothing is left out of the tag |
| UdpTable.SweptExactly | internal/transport/udp.go:138-147 | a sweep unmaps exactly the sessions last seen before the cutoff and those are the ones it owes a close |
| UdpTable.RemovedOnlyOwnEntry | internal/transport/udp.go:120-127 | removing a replaced session leaves its replacement and every other entry mapped |
| UdpTable.FindFinds | internal/transport/udp.go:81-96 | a lookup fails only for a peer without a session when dialling fails; otherwise the peer's session is mapped and the next lookup finds the same one, and all other entries stay |
| UdpTable.UdpSessions.Session | internal/transport/udp.go:81-96 | the lookup returns the peer's session or maps a new one; a failed dial changes nothing |
| UdpTable.UdpSessions.Touch | internal/transport/udp.go:47 | the session's last-seen time becomes the present, and nothing else changes |
| UdpTable.TouchedIsSeen | internal/transport/udp.go:47 | a touched session survives every sweep whose cutoff is no later than the touch, and no other session gains or loses by it |
| UdpTable.UdpSessions.Remove | internal/transport/udp.go:120-127 | the entry goes only if it is still this session's; the socket is closed either way |
| UdpTable.UdpSessions.SweepLocked | internal/transport/udp.go:139-147 | the loop over the map, in any order and deleting as it goes, is the sweep as a set operation |
| UdpTable.UdpSessions.CloseIdle | internal/transport/udp.go:148-151 | exactly the sessions taken out are closed |
| UdpTable.UdpSessions.CloseAll | internal/transport/udp.go:155-162 | the map ends empty and exactly the sessions that were mapped get closed |
| UdpRelay.StepKeepsTable | internal/transport/udp.go:49-162 | each of the relay's steps keeps the session-table invariant |
| UdpRelay.SessionTable | internal/transport/udp.go:81-162 | in every interleaving: entries are keyed by their session's peer; a mapped session is open and has a pump that runs or is about to remove it; an unmapped one is closed or its close is pending |
| UdpRelay.WhoUnmaps | internal/transport/udp.go:120-162 | an entry is removed only by its own session's pump, by a sweep more than three minutes after its last touch, or at shutdown |
| UdpRelay.WhoMaps | internal/transport/udp.go:81-96 | an entry appears only for a session made by the read loop in that very step |
| UdpRelay.TouchedIsSpared | internal/transport/udp.go:69-74 | a session in use is kept: after any touch at time T, by the read loop, by its pump or in making it, it is still mapped in every continuation up to T + 3 min, unless its own pump removed it or the relay shut down |
| UdpRelay.FiltersFit | internal/transport/udp.go:192-226 | whatever one side seals the other side opens unchanged, in both directions |
| UdpRelay.FoundIsSparedIff | internal/transport/udp.go:69-74 | for all times: a session found with its last touch at L is spared by every sweep until the touch at T, in every run, if and only if T <= L + 3 min |
| UdpRelay.FoundSessionCanBeSwept | internal/transport/udp.go:69-74 | for every relay and all such times, a run in which an old session is found just before a tick and swept before it is touched |
| UdpRelay.FoundSessionCanBeRemoved | internal/transport/udp.go:99-127 | for every relay, a run in which a session just found is removed by its own pump before it is touched |
| UdpRelay.ShutdownIsPermanent | internal/transport/udp.go:49-96 | after closeAll the table stays empty and no session is made, in every continuation |
| UdpRelay.NoSocketLeaks | internal/transport/udp.go:81-162 | when the read loop, the pumps and any sweep have finished, every dialled socket is closed |
| UdpRelay.ClosedSocketEndsPump | internal/transport/udp.go:99-116 | closing a socket makes its pump end: it can always move and a measure falls with each of its moves and no other |
| UdpRelay.ListenerAfterReturn | internal/transport/udp.go:51-62 | the listener outlives the relay for good exactly when the read loop left before the context was done |
| UdpRelay.ListenerLeftOpen | internal/transport/udp.go:51-62 | for every relay, a run in which it returns with its listener open and nobody left to close it |
| UdpRelay.CancellingClosesListener | internal/transport/udp.go:51 | once the context is done, the hook can run or has run, and running it closes the listener, unless the read loop had left before |
| UdpRelay.ClosedListenerEndsRelay | internal/transport/udp.go:49-79 | a closed listener ends the read loop: it can always move, a measure falls with its own steps, and nothing delays it or opens the listener again |
| UdpRelay.NoCrossing | internal/transport/udp.go:49-116 | every datagram sent upwards goes out on the socket of the peer that sent it, every reply goes to the peer whose socket it came in on, filtered and unchanged, in every interleaving |
| UdpLoops.TurnEffect | internal/transport/udp.go:57-77 | one turn of the read loop: dropped, failed to dial, or found, touched and forwarded |
| UdpLoops.Run | internal/transport/udp.go:49-79 | the read loop on the session object takes the relay's steps datagram by datagram, sends what they send, and leaves an empty map |
| UdpLoops.Pump | internal/transport/udp.go:99-116 | the pump on the session object takes the relay's pump steps and then removes its session, whether or not the listener is still open |
| UdpLoops.CopyReplies | internal/transport/udp.go:102-115 | the pump's loop, reply by reply, touches and sends what the steps do |
| UdpTunnel.StepKeepsInv | internal/transport/udp.go:183-231 | every step of two composed relays, the network and outsiders keeps the tunnel invariant |
| UdpTunnel.TargetGetsOnlyAppPayloads | internal/transport/udp.go:183-231 | whatever outsiders inject, the target receives only exact payloads that some application sent |
| UdpTunnel.AppsGetOnlyTargetPayloads | internal/transport/udp.go:183-231 | whatever outsiders inject, applications receive only exact payloads that the target sent |
| UdpTunnel.RequestsComeFromOneApp | internal/transport/udp.go:183-231 | what the target gets on the session of a client socket that outsiders cannot use is what that one local peer sent |
| UdpTunnel.RepliesReachOneApp | internal/transport/udp.go:183-231 | if outsiders cannot use the server's listening address, a reply read on a session's target socket reaches only that session's application |
| UdpTunnel.ReplyCrosses | internal/auth/datagram.go:31-48 | for every tunnel whose server address can be forged, a run in which a repeated reply reaches another application |
| UdpTunnel.RepliesRoutedIff | internal/transport/udp.go:183-231 | replies are routed in every run of a tunnel if and only if the server's listening address cannot be forged, whatever the other addresses |
| UdpTunnel.RequestCrosses | internal/auth/datagram.go:31-48 | for every client socket address that can be forged, a run in which the target gets on that socket's session what its application never sent |
| UdpTunnel.RequestsRoutedIff | internal/transport/udp.go:183-231 | for each address a client socket can have, requests on its sessions come from its own application in every run if and only if that address cannot be forged |
| UdpTiming.IdleSessionIsGone | internal/transport/udp.go:129-153 | a session last touched at t is out of the table by t + 4 min, for every tick phase and any traffic |
| UdpTiming.TickExpiresExactly | internal/transport/udp.go:138-147 | a tick takes a session out if and only if its last touch is more than three minutes ago |
| UdpTiming.TouchedSessionStays | internal/transport/udp.go:47-153 | a session touched at t is in the table until t + 3 min, for every tick phase, unless it is removed and closed for another reason |
| Dialer.StepKeepsInv | internal/transport/session.go:48-104 | each step of any number of Dial and Close calls keeps ownership of sessions and carriers |
| Dialer.SessionOwnership | internal/transport/session.go:48-104 | every session ever connected is current and unclosed, or has been closed by the dialer exactly once |
| Dialer.CarrierOwnership | internal/transport/client.go:131-161 | every carrier ever dialled has been closed once, or is open and belongs to the current session or to the one call that is connecting |
| Dialer.LateDiscardIsHarmless | internal/transport/session.go:97-104 | a late discard changes no other session; a replacement stays current and open |
| Dialer.ClosedStaysOut | internal/transport/session.go:76-104 | a session the dialer has closed is never current or closed again |
| Dialer.LookReusesExactlyLive | internal/transport/session.go:82-88 | a lookup takes a live current session and changes nothing; a dead one is closed and not handed out |
| Dialer.WhoClosesLive | internal/transport/session.go:65-104 | a live current session is closed only by Close or by the discard of a call that could not open on it |
| Dialer.RetryUsesAnotherSession | internal/transport/session.go:48-63 | the second attempt never uses the session the first one failed on, however calls interleave |
| Dialer.CloseIsPermanent | internal/transport/session.go:65-95 | after Close nothing is ever connected again and every session and carrier is closed, one in the making included |
| Dialer.CloseCloses | internal/transport/session.go:65-95 | Close shuts the dialer and closes every session there is, and every later lookup is refused |
| Dialer.DialEnds | internal/transport/session.go:48-63 | every Dial ends: a measure falls with its own steps only, and it or the holder of the lock can always move |
| DialerObject.DialAuthenticated | internal/transport/client.go:73-83 | a carrier that fails the handshake has been closed |
| DialerObject.Connect | internal/transport/client.go:131-161 | on each failure path of either connect function the carrier has been closed exactly once; on success the session owns it |
| DialerObject.RetryIsOnAFreshSession | internal/transport/session.go:48-63 | without interference the retry opens on a session this call has connected and the stale one is closed |
| DialerObject.DialSucceedsExactly | internal/transport/session.go:48-63 | without interference Dial succeeds if and only if the dialer is open, a session is there or can be connected, and a stream opens on it or on a new one after it failed; a live session that opens is used and nothing changes |
| DialerObject.SessionKeeps | internal/transport/session.go:76-95 | the locked lookup keeps ownership and returns the current, unclosed session |
| DialerObject.SessionDialer.Session | internal/transport/session.go:76-95 | on the fields: a closed dialer refuses, a live session is returned with nothing changed, a dead one is closed once and not returned |
| DialerObject.SessionDialer.DiscardSession | internal/transport/session.go:97-104 | only the current session is discarded, with its carrier |
| DialerObject.SessionDialer.Close | internal/transport/session.go:65-74 | the flag is set and the current session closed and forgotten |
| DialerObject.SessionDialer.Dial | internal/transport/session.go:48-63 | the retry loop is two attempts at most, the second on the fields the first has left |
| DialerObject.DialIsSteps | internal/transport/session.go:48-63 | an undisturbed Dial, connecting, failing and retrying as it may, is a run of the transition system from any reachable state, with the same session and fields |
| Pipe.StepKeepsInv | internal/netutil/pipe.go:25-48 | each step of the two halves, the caller and the peers conserves bytes in both directions |
| Pipe.WrittenIsPrefixOfRead | internal/netutil/pipe.go:25-48 | over all interleavings and chunkings, what is written to each end is a prefix of what was read from the other |
| Pipe.BothDirectionsComplete | internal/netutil/pipe.go:38-48 | with CloseWrite on both ends, a direction without a network error has delivered everything up to end of file when it is done, whichever ends first |
| Pipe.OnReturn | internal/netutil/pipe.go:25-36 | on return both ends are closed and each direction is complete, broken by the network, or cut off by an end without CloseWrite |
| Pipe.PipeStepsRunOut | internal/netutil/pipe.go:25-48 | every step of Pipe lowers a measure over unread bytes and running halves |
| Pipe.PipeCanMove | internal/netutil/pipe.go:25-48 | until it returns, Pipe can move by itself if and only if it is not stuck: some direction is neither done, nor waits for its open, silent source, nor is in a write whose peer takes nothing |
| Pipe.EndingIsFinal | internal/netutil/pipe.go:43-47 | once a direction towards an end without CloseWrite is done, the rest is finite whatever the peers do, and Pipe can move if and only if the other direction is not blocked in a write |
| Pipe.BlockedUntilTaken | internal/netutil/pipe.go:38-48 | a blocked write holds Pipe until its peer takes something or the write fails, and nothing else frees it |
| Pipe.ReturnsAloneIff | internal/netutil/pipe.go:25-48 | from there Pipe returns by its own steps if and only if the peer of the other destination takes what that direction has in hand |
| Pipe.BlockedWriteHoldsPipe | internal/netutil/pipe.go:35 | a run in which the mux stream is closed and Pipe waits in a write to a TCP peer that does not read |
| Pipe.OtherDirectionWaitsIff | internal/netutil/pipe.go:43-47 | a finished direction leaves the other one waiting exactly if its destination has CloseWrite |
| Pipe.StreamEndLeavesPipeWaiting | internal/transport/session.go:154-166 | a concrete run in which the mux stream ends and Pipe waits for the TCP peer |
| Pipe.ArrivedCanBeLost | internal/transport/session.go:154-166 | for any data and either direction whose source lacks CloseWrite, a run without network error in which the data arrives and is never relayed |
| Pipe.CompleteIffSourceHalfCloses | internal/netutil/pipe.go:25-48 | without network errors, a direction has delivered everything on every return if and only if its source has CloseWrite |
| CopyHalf.CopyBuffer | internal/netutil/pipe.go:42 | the copy loop over one reused buffer conserves bytes, delivers all unless a write failed, and takes steps of Pipe round by round |
| CopyHalf.Copy | internal/netutil/pipe.go:38-48 | then it shuts down or closes its destination, and Pipe's half is done with the same bytes written, having met an error exactly if a write failed or the source broke |
| StreamTunnel.EndToEndPrefix | internal/transport/server.go:200-210 | over all interleavings of two Pipes joined by a stream, whatever breaks, the target has got a prefix of what the application sent, and the other way round |
| StreamTunnel.ByteIsLost | internal/netutil/pipe.go:43-47 | for either direction and every kind of ends of which one of its sources lacks CloseWrite, a run without network error in which a byte never arrives |
| StreamTunnel.EverythingArrivesIff | internal/transport/client.go:41-51 | without network errors, everything sent has arrived on every return of both Pipes if and only if both sources on the way have CloseWrite |
| WsConn.Reader.Read | internal/transport/wsconn.go:24-46 | the loop ends, and the bytes returned followed by what is pending are what was pending before; a read into a buffer brings bytes, or the end, or the error in which the stream breaks off, whichever it is |
| WsConn.Reader.NextMessage | internal/transport/wsconn.go:26-35 | text messages are passed over and the current message is replaced only when it is used up |
| WsConn.Reader.ReadMany | internal/transport/wsconn.go:24-46 | reads of any sizes return a prefix of the stream, and all of it, with its end, after one more read into a buffer than there are bytes |
| WsConn.WritesArriveInLockOrder | internal/transport/wsconn.go:48-55 | over any concurrent writers, fragmentation and other messages, finished messages carry exactly the payloads of the writes that returned, each once, in lock order |
| WsConn.WireCarriesAllSent | internal/transport/wsconn.go:48-55 | at any moment the wire carries the payloads of the writes that returned, in lock order, then a prefix of the one under way or failed midway, and nothing else |
| WsConn.StreamIsFaithful | internal/transport/wsconn.go:24-55 | end to end, wherever the connection breaks: reads return a prefix of that, a message under way included, and exactly what got through once the end or the error is reported, which it is after enough reads |
| Runner.StepKeepsInv | internal/client/runner.go:39-116 | each step of apply, stop and the supervise goroutines keeps the runner's invariant |
| Runner.OneTransport | internal/client/runner.go:39-100 | at most one supervise goroutine is live, in every interleaving |
| Runner.CurrentIsLive | internal/client/runner.go:39-85 | while the parent context is live, the current transport is live and has the settings of the last apply that returned nil |
| Runner.OneStartPerChange | internal/client/runner.go:39-50 | transports started are one per maximal run of equal announcements, as long as no apply failed and nothing was stopped |
| Runner.FailedApplyHasStopped | internal/client/runner.go:50-75 | after an apply that fails, nothing runs |
| Runner.ReturnedCallsHaveDone | internal/client/runner.go:39-100 | in every interleaving, a stop that returns leaves nothing running, and an apply that returns nil leaves the announced settings running |
| Runner.HolderCanMove | internal/client/runner.go:93-100 | waiting under the lock never deadlocks |
| Runner.ApplyIsSteps | internal/client/runner.go:39-85 | an undisturbed apply is a run of the transition system from any reachable state |
| Runner.RunnerObject.ApplySettings | internal/client/runner.go:39-85 | on the fields: a live transport with equal settings stays the very same, else it is stopped and a new one started or the call fails |
| Runner.RunnerObject.Stop | internal/client/runner.go:87-100 | the transport is cancelled, has returned, and is forgotten |
| Backoff.AcceptDelayStep | internal/netutil/accept.go:29 | the update of the delay takes the closed form for k errors to the one for k + 1 |
| Backoff.ReconnectDelayStep | internal/client/client.go:52 | the doubling step takes the closed form for k failures to the one for k + 1 |
| Backoff.AcceptDelaysAre | internal/netutil/accept.go:12-29 | the closed form in numbers: 5, 10, ... 640, and 1000 ms from the ninth error in a row on |
| Backoff.ReconnectDelaysAre | internal/client/client.go:39-53 | the closed form in numbers: 3, 6, 12, 24, 48, and 60 s from the sixth failure on |
| Backoff.TotalAcceptWaitIsLinear | internal/netutil/accept.go:12-36 | k consecutive accept errors wait 1275 + 1000 (k - 8) ms in all, for k >= 8 |
| Backoff.AcceptLoop | internal/netutil/accept.go:21-40 | over any history: connections are served in order until the first fatal outcome, and each error is followed by the closed form of the errors in a row |
| Backoff.ReconnectLoop | internal/client/client.go:39-53 | over any history each wait is the closed form of the attempts since the latest established one |
| Backoff.SuperviseLoop | internal/client/runner.go:103-116 | the k-th wait is min(3 * 2^(k-1), 60) s and is never reset |
| Gate.StepKeepsInv | internal/transport/server.go:133-210 | each step of the server's data side, over any handshakes, keeps the gate |
| Gate.DialsAreGated | internal/transport/server.go:133-210 | every target dial ever made was for a stream of a connection whose own handshake had succeeded before, with exactly one genuine client run behind it that no other connection shares |
| Gate.RelayedIsWhatWasWritten | internal/transport/server.go:159-166 | what is relayed of a stream is a prefix of what the client wrote, for QUIC of what it wrote after one marker byte |
| Gate.HandleConn | internal/transport/server.go:171-198 | the effects of a raw or smux connection, in order, given its bytes; 64 bytes are consumed before any stream |
| Gate.ConnDialsExactly | internal/transport/server.go:171-210 | the target is dialled if and only if the connection's bytes start with a correct proof, then once per stream in order; right after each dial the stream is relayed if it succeeded and closed if not, and at no other time |
| Gate.HandleQuicStream | internal/transport/server.go:159-166 | one byte is consumed and only the marker opens the way |
| Gate.ServeQuicConn | internal/transport/server.go:133-156 | the first stream authenticates the connection, and unless it does no other stream is touched |
| Gate.QuicConnDialsExactly | internal/transport/server.go:133-210 | likewise for a QUIC connection: if and only if its first stream brings a correct handshake, once for each later stream that starts with the marker, each relayed or closed according to its dial |
| GateRuns.ConnCallEnds | internal/transport/server.go:171-178 | in any run in which the connection still waits, it is admitted if and only if the handshake call returns a channel |
| GateRuns.HandleConnIsARun | internal/transport/server.go:171-210 | a call of handleConn takes steps of the gate: the run dials as often and in the same order as the log, for streams of this connection, and each is relayed in the run if and only if its dial succeeded |
| GateRuns.ServeQuicConnIsARun | internal/transport/server.go:133-166 | likewise for serveQUICConn with any number of streams |
| GateRuns.GenuineClientIsServed | internal/transport/server.go:171-210 | from any run, a client that knows the token is admitted over reliable streams, the target is dialled for each of its streams, and those whose dial succeeds are relayed |

## Left out

- Stealth, KCP, smux, QUIC and TLS themselves: foreign libraries; a mux session is open, dead or closed, a stream is bytes.
- SHA-256 and HMAC (section 2 of RFC 2104): an arbitrary function with the ideal assumption above; constant-time comparison is equality.
- JSON: an abstract codec; unknown fields, trailing data and the texts of errors are not distinguished.
- Sockets, DNS, logging, signals, deadlines and time-outs: a deadline that expires is one of the failures a read, a write or a connection may have at any time.
- Configuration files, flags, `runStatic` and the counting of listeners in `server.Run`: no state is shared there.
- Streams.Conn.Write: a failed write writes nothing; in the protocol runs of `Agreement` the network may deliver anything anyway.
- Datagrams larger than the receive buffer, and payloads that the 16-byte tag enlarges past the limit of UDP: payload plus tag is taken to fit.
- UdpLoops.Run: datagrams are values, so that the payload is a slice of the reused receive buffer is not visible; the slice is not used after its turn. Other goroutines act between turns in `UdpRelay` and not here.
- UdpTunnel.RepliesReachOneApp: one client process and one server process; sealed datagrams do not tell several clients apart either.
- UdpTiming.IdleSessionIsGone: the ticker is ideal and a sweep takes no time; the untimed relay allows late sweeps.
- CopyHalf.Copy: `io.CopyBuffer`'s short cuts through `WriterTo` and `ReaderFrom` and the buffer pool are a plain loop over a private buffer; a write that fails has written nothing here and any prefix in `Pipe`.
- DialerObject.Connect: the two stages that can fail after a carrier is up are an input; a carrier's close is idempotent in the libraries and counted here. `quicSession.open` is one stage of `Dialer`'s opening, its marker byte appears in `Gate`.
- Runner.RunnerObject.StopLocked: the wait for the goroutine is its outcome; the waiting itself, and the goroutine that ends it, are steps in the transition system.
- Pipe.EndingIsFinal: CloseWrite and Close themselves take no time.
- StreamTunnel.EndToEndPrefix: the stream's own framing, its handshake and its QUIC marker come before the bytes counted there.
- Gate.HandleConn: streams are handled one after the other, here and in `GateRuns`; their interleaving is in the transition system.
- WsConn.Reader.Read: an error of the underlying connection comes where what was delivered ends, between messages or in the middle of one.
