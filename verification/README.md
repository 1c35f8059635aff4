# mhp: a Dafny model of the tunnel's protocols

mhp carries a browser's connections through three roles: browser → proxy → relay → exit → website.
Each role runs a handful of small concurrent protocols. This project models those protocols and
states, for every interleaving, every chunking and every input, what they keep.

`dafny verify dfyconfig.toml` checks the whole project.

| module | what it models |
|---|---|
| `Pipeline` | one direction of a chain of copiers, the simple form that a chain of duplexes refines |
| `Duplex` | one `Duplex.Run`: two copiers, the results channel, drain timer, cancellation, force-close, join |
| `Chain` | any number of duplexes in a row, between two endpoints, both directions |
| `Delivery` | progress in such a chain: everything sent arrives |
| `Leaving` | how one duplex comes to an end without its peers: cancellation, timer, errors |
| `Registry`, `RelayService` | generation-stamped slots; accept goroutine, workers, sweep and shutdown |
| `Bridge` | stream pairing, the 256-pair ceiling, per-pair watcher and copy goroutine |
| `Connector`, `Handoff` | the reconnect loop with the broker that consumes its links; the broker's stream hand-off |
| `Backoff` | both backoff computations, in 64-bit arithmetic |
| `Framing`, `Handshake`, `Proxy` | length-prefixed frames; the two-party exchange over them; the proxy's request forwarding |
| `Redaction`, `Access`, `Admission` | log redaction, the exit's destination policy, the two admission semaphores |

## How it is modelled

- Concurrent parts are step machines: `Enabled`/`Apply` over one state, one action per lock region,
  channel operation, connection call or outside event, and a run is any sequence of enabled actions.
  Statements about "every run" quantify over all of them, with any number of hops, workers, streams or links.
- Sequential parts keep their form: a class with the fields that the code updates, a method with the
  loop that the code has, each proved against a specification function or an outright property.
- Environments are contracts. A past deadline or a close makes blocked reads and writes fail. A closed
  session makes AcceptStream fail after finitely many pending streams. The relay's TLS handshake ends by its
  deadline or its context; reading the hello after it ends only when the client does something. The JSON codec gives back what it
  encoded, for the records of one exchange (`Handshake.Faithful`; `Handshake.PlainCodecIsFaithful` gives a
  codec that meets it). A session does not give an id in use to a second stream. A dial under a cancelled
  context fails. Reads, writes and timers choose nondeterministically within these bounds.
- `time.Duration` is a wrapping 64-bit integer, the frame length a wrapping 32-bit one and a slot's
  generation a wrapping 64-bit one. Jitter is a rounded product over `real`, for every rounding that is
  monotone and leaves floats alone. Byte masks are division and remainder.

## What does not hold, and exactly when it does

- The bridge's `active` is not always the set of live stream ids, not even in a state whose live ids are
  distinct (`Bridge.ReusedIdLosesEntry`, with two proxy sessions). It is exactly when every live pair has an
  unshadowed pair of its id (`Bridge.ActiveEqualsLiveIff`), in particular while live ids have always been
  distinct. In all runs with at most n proxy sessions it is, if and only if n <= 1
  (`Bridge.ActiveEqualsLiveForIff`).
- A connector's session can outlive both `Run` methods, when `serve` takes `link.done` after the parent was
  cancelled (`Connector.SessionCanLeak`). From any reachable state this can happen to a session if and only
  if it is the newest, is open, and the broker is not serving it (`Connector.LeakIff`).
- Generations are 64 bits wide. In all runs with up to n registrations and vacates a slot has one owner, its
  holder is the newest worker, and a stale `Vacate` is harmless, if and only if n <= 2^64
  (`RelayService.OneOwnerIff`, `RelayService.NewestHoldsIff`, `RelayService.VacateOnlyOwnIff`); an evicted mux
  is closed once if and only if n <= 2^64 + 1 (`RelayService.ClosedOnceIff`). Everything else about closing,
  recording and shutdown holds without a bound.
- A cancelled `Service.Run` does not always return by itself: the hello is read with neither a deadline nor the
  context. If the peers stay silent it returns if and only if no client that has finished TLS is holding back
  its hello (`RelayService.CancelReturnsIff`, `RelayService.SilentClientHangs`).
- `requestConn` closes the browser connection entirely on CloseWrite. A duplex can hurt its own other
  direction before the drain timeout if and only if one of its connections does that (`Chain.HarmIffFullClose`).
- A direction that succeeds has sent its FIN if and only if the connection has a CloseWrite of some kind
  (`Chain.FinPrecedesSuccessIff`). A clean EOF at the far end proves completeness if and only if there is no
  duplex in between (`Chain.TruncationIff`).
- The connector's wait is min(MinBackoff·2^k, MaxBackoff) for all k if and only if MaxBackoff < 2^62 ns
  (`Backoff.ConnectorIsBaseIff`). The authenticator's is right for all k if and only if no value it doubles has
  reached 2^62 and MaxBackoff plus the jitter fits 64 bits (`Backoff.AuthenticatorIsBaseIff`). `Timing.validate` is called from no code but its tests, so a
  valid schedule is a hypothesis of these statements.
- `writeFrame` checks for a short write of the body only, although its comment also covers the prefix
  (`Framing.WrittenIsWholeFrameIff`). Bodies from 2^32 bytes on are framed with a wrapped length.
- The destination policy lets through an address that is neither 4 nor 16 bytes long (`Access.MalformedPasses`).
- The protocol document treats a hello without a role as a wrong token; the code reports a bad role first,
  and the model follows the code. Dial errors are formatted without being wrapped, so the cancellation
  branch of `Connector.Run` is rarely taken; the model allows both outcomes.

## Model

| member | source | states |
|---|---|---|
| Pipeline.StepKeepsInv | internal/stream/duplex.go:32-40 | every read, write, EOF, failure or close of any copier in a line of n copiers keeps: sent = delivered followed by the bytes in flight hop by hop; a copier at EOF has an empty, finished wire in front of it |
| Pipeline.DeliveredIsPrefix | internal/stream/duplex.go:32-40 | delivery is an in-order prefix of what was sent, and the rest is exactly what is in flight |
| Pipeline.AllEofDeliversAll | internal/stream/duplex.go:32-40 | if every copier of the line reached EOF, nothing is left but on the last wire, and a sink at EOF has the full string |
| Duplex.StepKeepsHopInv | internal/stream/duplex.go:30-94 | every step of both copiers, the caller and the outside keeps the protocol of Run: results in order of posting, the reason for leaving the loop, force-close progress, one timer; that the steps also happen is in `Leaving` and `Delivery` |
| Duplex.RunLoop | internal/stream/duplex.go:41-74 | the caller's select loop and deferred drain loop take exactly two results, in the order found; nil exactly on two successes, the drain timeout exactly on one success then the timer, the context's error exactly when the cancellation decided, and otherwise the very error that did |
| Leaving.StuckIffWaits | internal/stream/duplex.go:56-72 | no goroutine of Run can move before the return if and only if nothing was cancelled, no timer is armed, and both directions wait for their peers |
| Leaving.CancelReturns | internal/stream/duplex.go:67-68 | in every state the context can be cancelled, and then Run's own steps are bounded and end in the return, however silent the peers |
| Leaving.TimerReturns | internal/stream/duplex.go:62-71 | the same after a first success, by the drain timer alone |
| Leaving.ToldReturns | internal/stream/duplex.go:42-74 | the same from any state with a reason to leave; what Run returns is settled when the loop is left |
| Leaving.SilentReturnsReason | internal/stream/duplex.go:67-71 | with silent peers Run returns exactly the reason it was told: the context's error or the drain timeout |
| Leaving.CanReturnCancelled | internal/stream/duplex.go:67-68 | while the loop runs, whatever is on the channel, a run that returns the context's error |
| Leaving.CanTimeOut | internal/stream/duplex.go:69-71 | after a first success, whatever is on the channel, a run that returns the drain timeout |
| Leaving.CanFail | internal/stream/duplex.go:32-38 | a direction can fail while copying or while passing on the FIN, with any error, and a run returns that very error |
| Leaving.CutIsReturned | internal/stream/duplex.go:32-38 | a copy cut by the duplex's own close is returned as the error it got |
| Leaving.PastDeadlineUnblocks | internal/stream/duplex.go:88-94 | a deadline in the past unblocks a copier before either connection is closed |
| Leaving.AnyChunk | internal/stream/duplex.go:32-38 | a copier can take, read and write pieces of any size |
| Duplex.ReturnedHasJoined | internal/stream/duplex.go:42-48 | once Run has returned, both copiers are done, their two results are exactly those received, the channel is empty and both connections are past their deadline and closed |
| Duplex.ForceCloseBeforeJoin | internal/stream/duplex.go:42-48 | the join begins only after both deadlines were moved and both connections closed |
| Duplex.SendNeverBlocks | internal/stream/duplex.go:31-38 | a copier with a result can always send it |
| Duplex.NilReturnMeansBothEof | internal/stream/duplex.go:56-73 | nil means that both directions copied to EOF and both CloseWrites succeeded |
| Duplex.TimerArmedOnce | internal/stream/duplex.go:49-71 | the timer is armed at most once, exactly after a first success; ErrDrainTimeout implies that exactly one success was received |
| Duplex.JoinStepsDecrease | internal/stream/duplex.go:42-48 | while joining, no outside step adds remaining work and every step of Run's own goroutines removes some |
| Duplex.JoinNeverStuck | internal/stream/duplex.go:42-48 | while joining, some goroutine of Run can always move |
| Duplex.JoinTerminates | internal/stream/duplex.go:42-48 | whatever the outside does meanwhile, at most 11 own steps remain, and when none is possible Run has returned |
| Duplex.StepKeepsNodeInv | internal/stream/duplex.go:76-94 | every step keeps: a success has its FIN on the wire wherever the connection has a CloseWrite, and a half-closing duplex without outside faults has harmed neither direction before leaving its loop |
| Duplex.FinLeavesReverseIntact | internal/stream/duplex.go:76-86 | with half-closing connections, a direction not yet at EOF is still copying, both its connections and its outgoing wire are open, it cannot fail by the duplex's own doing, and its pending write can proceed |
| Chain.HopStepRefines | internal/stream/duplex.go:30-94 | a step of any hop is, in each direction, one step of the simple line |
| Chain.EndStepRefines | internal/stream/duplex.go:30-40 | a step of an endpoint is one step of its direction's line and nothing to the other |
| Chain.StepKeepsInv | internal/stream/duplex.go:30-94 | every step anywhere in a chain of n duplexes keeps conservation in both directions and every hop's protocol |
| Chain.BytesAreConserved | internal/stream/duplex.go:32-40 | for any number of hops, any run, and each direction: sent = delivered followed by the bytes in flight, so delivery is an in-order prefix |
| Chain.AllEofMeansComplete | internal/exit/handler.go:219-225 | including bytes read ahead by a wrapped reader, if every hop's copier of a direction reached EOF and the receiver saw EOF, everything sent was delivered |
| Chain.NilReturnMeansComplete | internal/stream/duplex.go:56-73 | in any chain, a hop whose Run returned nil copied both ways to EOF, both its incoming wires are empty and finished, and both its outgoing wires carry a FIN wherever the connection has a CloseWrite |
| Chain.EveryHopKeepsProtocol | internal/stream/duplex.go:41-74 | in every reachable state of every chain, each hop meets the results, timer, force-close and join rules |
| Chain.HarmIffFullClose | internal/proxy/listener.go:158-161 | some run makes a duplex fail one of its own directions, with bytes undelivered and before its loop ends, if and only if one of its connections fully closes on CloseWrite |
| Chain.FullCloseRun | internal/proxy/listener.go:158-161 | for each connection that fully closes, a run in which a FIN one way cuts the other way |
| Chain.FinPrecedesSuccessIff | internal/stream/duplex.go:78-86 | a success, posted or not, has its FIN on the wire in every run, if and only if the written connection has a CloseWrite |
| Chain.TruncateRun | internal/stream/duplex.go:88-94 | for every chain of one or more hops and either direction, a run in which the receiver sees EOF although a byte is missing |
| Chain.TruncationIff | internal/stream/duplex.go:88-94 | some run ends with a clean EOF and missing bytes if and only if the chain has at least one hop |
| Delivery.StepWorks | internal/stream/duplex.go:30-94 | in any chain of half-closing duplexes, without outside failure, cancellation or timeout, and with both FINs sent, every step that changes anything uses up work: bytes weighted by the stations they still have to leave, plus what is left of each Run |
| Delivery.NeverStuck | internal/stream/duplex.go:30-94 | until every Run has returned nil and both receivers have seen EOF, some step is possible |
| Delivery.EverythingArrives | internal/stream/duplex.go:30-94 | so every such run is bounded, and one that cannot go on has returned nil at every hop and delivered everything sent, in both directions |
| Delivery.CompletingRun | internal/stream/duplex.go:30-94 | and from every such state some run gets there |
| Registry.Registry.constructor | internal/relay/registry.go:28-30 | every slot is empty |
| Registry.Registry.Register | internal/relay/registry.go:36-49 | the caller holds the slot with the returned generation, the previous holder is handed back, other slots are untouched |
| Registry.Registry.Current | internal/relay/registry.go:53-62 | reports the holder and generation exactly when there is one |
| Registry.Registry.Stale | internal/relay/registry.go:67-76 | false exactly when some mux holds the slot under this generation |
| Registry.Registry.Vacate | internal/relay/registry.go:82-92 | empties the slot only for the owning generation; a stale call and other slots change nothing |
| RelayService.RecordIsStep | internal/relay/service.go:150-154 | adding the session to the guarded set is the accept goroutine's recording step of the joint machine, and closes nothing |
| RelayService.DeleteIsStep | internal/relay/service.go:110-114 | removing it from the set is the worker's last step of the joint machine, and closes nothing |
| RelayService.Service.CloseAll | internal/relay/service.go:158-164 | closes exactly the recorded sessions and forgets none |
| RelayService.CloseAllIsSweep | internal/relay/service.go:158-164 | closeAll on the sets is the sweep step of the joint machine |
| RelayService.StepKeepsInv | internal/relay/service.go:60-147 | every step of the accept goroutine, any worker and the shutdown path keeps slot holders alive, evictions unique, and the sweep's guarantees, however often the counter went round |
| RelayService.RegisterKeepsSlots | internal/relay/registry.go:36-49 | registering in any reachable state turns the old holder into exactly one worker's `prev` |
| RelayService.VacateKeepsSlots | internal/relay/registry.go:82-92 | after vacating, no slot is held by a worker that has vacated |
| RelayService.SlotHasOneOwner | internal/relay/service.go:109-147 | in every interleaving with up to 2^64 registrations and vacates a non-empty slot's mux and generation belong to exactly one registered, not yet vacated worker |
| RelayService.OneOwnerIff | internal/relay/registry.go:36-49 | the bound is exact: one owner in all runs with up to n registrations and vacates if and only if n <= 2^64 |
| RelayService.CounterGoesRound | internal/relay/registry.go:36-49 | a run of 2^64 + 1 registrations after which the first and the newest worker share role and generation |
| RelayService.HolderIsAlive | internal/relay/service.go:109-147 | in every run at all, the holder of a slot is a worker of that role and generation that has not vacated |
| RelayService.VacateOnlyOwn | internal/relay/registry.go:82-92 | a worker's Vacate empties the slot if it still holds it and changes nothing otherwise: no successor is evicted, up to 2^64 registrations and vacates |
| RelayService.VacateOnlyOwnIff | internal/relay/registry.go:82-92 | that bound is exact as well |
| RelayService.StaleVacateEvicts | internal/relay/registry.go:82-92 | one registration beyond it, a run in which a stale Vacate evicts the newest worker and leaves it open, with nobody about to close it |
| RelayService.NewestHolds | internal/relay/service.go:116-127 | the holder of a slot is newer than all of its role's other unvacated workers, up to 2^64 registrations and vacates: newest means registration order |
| RelayService.NewestHoldsIff | internal/relay/service.go:116-127 | that bound is exact |
| RelayService.FinishedLeavesNothing | internal/relay/service.go:109-147 | once every worker has finished, every slot is empty |
| RelayService.EvictedIsClosedOnce | internal/relay/service.go:118-126 | a mux that was in a slot and no longer is, is closed or is the `prev` of exactly one worker about to close it, up to 2^64 + 1 registrations and vacates |
| RelayService.ClosedOnceIff | internal/relay/service.go:118-126 | that bound is exact |
| RelayService.ReturnLeavesNothing | internal/relay/service.go:60-104 | when Run returns, every session the handshake yielded is closed and finished, none is recorded, every slot is empty |
| RelayService.NothingRecordedAfterSweep | internal/relay/service.go:92-100 | after the sweep no session appears and none is recorded again |
| RelayService.ShutdownDecreases | internal/relay/service.go:94-103 | after the sweep every possible step of any goroutine strictly decreases the remaining work |
| RelayService.ShutdownNeverStuck | internal/relay/service.go:94-103 | after the sweep and before the return, some goroutine of the relay can move |
| RelayService.ShutdownTerminates | internal/relay/service.go:94-103 | a run after the sweep is no longer than the remaining work, and when nothing can move Run has returned |
| RelayService.StuckIffHangs | internal/relay/service.go:60-104 | after cancellation or a broken listener and before the return, the relay has no step of its own if and only if Run waits for the accept goroutine, which waits for a hello, and every worker is finished or parked on a silent peer |
| RelayService.CancelReturnsIff | internal/relay/service.go:60-104 | with silent peers such a relay takes boundedly many steps and then has returned if and only if no client was holding back its hello |
| RelayService.SilentClientHangs | internal/transport/handshake.go:76-78 | a run into that state: one client finishes TLS and sends nothing more |
| RelayService.ClientsCannotStop | internal/transport/handshake.go:134-156 | in every run that neither cancels the relay nor breaks its listener the accept goroutine never stops and Run keeps waiting, however clients behave |
| RelayService.ServesOneMore | internal/transport/handshake.go:134-156 | from every reachable state of such a relay, also in the middle of a bad client's handshake, a client still to come can connect in either role, register and have a stream served; after a bad client only the previous holder of the role notices |
| RelayService.CancelledServesAtMostOne | internal/relay/bridge.go:48-60 | after cancellation a serve loop takes at most the one stream it is already waiting for |
| RelayService.ClosedListenerAdmitsNobody | internal/relay/service.go:93-94 | once the listener is closed at most the client in its handshake still gets a session |
| RelayService.CanEnd | internal/relay/service.go:66-92 | the relay can be cancelled at any time, and its listener can break whenever it listens |
| Bridge.Bridge.constructor | internal/relay/bridge.go:37-42 | no stream is active and no slot is taken |
| Bridge.Bridge.Launch | internal/relay/bridge.go:127-138 | the lock region admits exactly below the ceiling, then records id and count together, and never passes 256 |
| Bridge.ReleaseUndoesAdmitIff | internal/relay/bridge.go:205-212 | giving a slot back undoes taking it if and only if the id was not active before; the count is restored in any case |
| Bridge.StepKeepsInv | internal/relay/bridge.go:48-212 | every step of any accept loop, watcher and copy goroutine keeps the books, each stream's fate and the loops' hold on streams |
| Bridge.ConnsIsExact | internal/relay/bridge.go:126-212 | `conns` is exactly the number of pairs launched and not yet tracked, within 0..256 |
| Bridge.ActiveIsContained | internal/relay/bridge.go:126-212 | `active` is contained in the ids of live pairs |
| Bridge.ActiveEqualsLiveIff | internal/relay/bridge.go:126-212 | `active` equals the live ids exactly when every live pair has a live pair of its id that was launched after the last track of that id |
| Bridge.ActiveIsExactWhenDistinct | internal/relay/bridge.go:126-212 | while live ids have been distinct throughout, `active` equals them |
| Bridge.ActiveIsExactForOneSession | internal/relay/bridge.go:48-79 | as long as there was only one proxy session, `active` equals the live ids |
| Bridge.ReusedIdLosesEntry | internal/relay/bridge.go:205-212 | a reachable state with two proxy sessions, one live pair, id 5, and an empty `active` |
| Bridge.ActiveEqualsLiveForIff | internal/relay/bridge.go:126-212 | `active` equals the live ids in all runs with at most n proxy sessions if and only if n <= 1 |
| Bridge.StreamAccounted | internal/relay/bridge.go:48-79 | every accepted proxy stream is held by exactly one loop, closed once for one of three reasons, live, or over with its slot released once |
| Bridge.ReleaseAfterWatcher | internal/relay/bridge.go:161-163 | a slot is released once, only after the pair's watcher ended and its context was cancelled, and frees exactly one place |
| Bridge.UnwindingNeverStuck | internal/relay/bridge.go:146-163 | once a session or the parent of a pair is gone, its context is cancelled or its copy is over, some step of the pair's own goroutines is always possible |
| Bridge.SlotComesBack | internal/relay/bridge.go:146-212 | from then on, whatever all other goroutines do, at most five own steps remain, and when none is possible the watcher has woken, the copy has ended and the slot was given back exactly once |
| Bridge.SessionEndUnwinds | internal/relay/bridge.go:146-159 | every live pair can lose a session or its parent, and is on its way out from then on |
| Bridge.CopyEndUnwinds | internal/relay/bridge.go:161-201 | a copy can end by itself, and then too |
| Bridge.StreamIsDecided | internal/relay/bridge.go:48-79 | from every reachable state an accepted stream is decided for each way its lookup and open can go: closed once without an exit or after a failed open, launched below 256 live pairs, closed once together with its exit stream at 256; nothing else changes and the loop accepts again |
| Bridge.LoopMovesOn | internal/relay/bridge.go:48-79 | a loop that holds a stream can always go on, and each of its steps brings it closer to accepting again |
| Bridge.RejectRun | internal/relay/bridge.go:85-102 | an exit's stream is accepted and closed once, and nothing else changes |
| Bridge.ReverseIsRejected | internal/relay/bridge.go:85-102 | a stream that an exit opened is with exactly one ServeExit loop or was closed exactly once, and is never with a ServeProxy loop nor in a pair |
| Bridge.OpenedIsPlaced | internal/relay/bridge.go:66-79 | a stream that the relay opened on an exit is in exactly one place, a loop or a pair, or was closed exactly once at the ceiling |
| Bridge.PairingIsOneToOne | internal/relay/bridge.go:126-138 | every live pair's exit stream was opened by the relay, is not closed by a loop, and is no other pair's |
| Connector.StepKeepsInv | internal/transport/connector.go:80-186 | every step of Run, the watchers, the sessions and the broker keeps link retirement, publication, service order and the backoff value |
| Connector.OnlyNewestLives | internal/transport/connector.go:80-186 | every link but the newest has an ended session and a cancelled context; the newest one's context is done once Run has let go of it, and a link still published at the return is retired too |
| Connector.AlwaysReconnects | internal/transport/connector.go:80-145 | from every reachable state whose parent is alive, whatever failed before, a run that publishes a new link and after which the broker is serving it |
| Connector.AttemptsAddUp | internal/transport/connector.go:80-145 | over any run, every attempt that began ended in exactly one way or is under way, every failed attempt is followed by exactly one wait, and every wait that elapsed by another attempt |
| Connector.WaitsAreExpected | internal/transport/connector.go:80-145 | the delays waited in any run of the joint machine are those of the loop's own arithmetic, turn by turn |
| Connector.FailRun | internal/transport/connector.go:83-96 | any number of failures can come first, before or after dialling, each waited out once |
| Connector.CancelReturns | internal/transport/connector.go:173-199 | from every reachable state cancelling the parent lets both Run methods return within seven steps, without the network |
| Connector.CancelIsSeen | internal/transport/connector.go:173-199 | serve, the backoff, the dial and the broker each see the cancellation, and serve and the broker then end the session |
| Connector.SnapshotIsNewest | internal/transport/connector.go:61-67 | Snapshot is empty while connecting or backing off, and otherwise shows the newest link |
| Connector.ClearHitsOwnLink | internal/transport/connector.go:71-73 | clearIf always finds its own link published and leaves nothing published |
| Connector.ServedInOrder | internal/exit/broker.go:41-65 | over any joint run the broker serves a strictly increasing subsequence of the published links |
| Connector.WaitIsBase | internal/transport/connector.go:81-94 | the next wait after k failures since start or the last healthy session is min(MinBackoff·2^k, MaxBackoff) |
| Connector.OnlyNewestCanLeak | internal/transport/connector.go:173-186 | after Run has returned only the newest session can still be open, then nothing is published, its link.done is closed, and the broker never served it or still does |
| Connector.LeakIff | internal/transport/connector.go:173-186 | from any reachable state both Run methods can return with session i open, if and only if it is the newest, is open, and the broker is not serving it |
| Connector.ServedSessionsEnd | internal/exit/broker.go:82-96 | every link that the broker served and let go of has an ended session |
| Connector.SessionCanLeak | internal/transport/connector.go:174-176 | a run in which both Run methods return while a session is still open |
| Connector.RetryWaits | internal/transport/connector.go:80-145 | the loop's own arithmetic waits as expected on every sequence of failures and sessions |
| Connector.PollLinks | internal/exit/broker.go:41-65 | the polling loop serves only snapshots, misses none it was shown, and serves in increasing order if snapshots never go back |
| Handoff.StepKeepsInv | internal/exit/broker.go:70-125 | every step of acceptor, server and session keeps each accepted stream in exactly one place |
| Handoff.NoStreamLost | internal/exit/broker.go:70-125 | in every interleaving the accepted streams are, in order, those served, at most one closed on wind-down, at most one still held |
| Handoff.OpenSessionServes | internal/exit/broker.go:82-125 | on an open session the acceptor never goes away, serves a stream with every three steps, closes none, and can move unless everything that ever arrived has been served |
| Handoff.ClosingUnwinds | internal/exit/broker.go:82-125 | when the session ends or the context is cancelled, both goroutines take boundedly many steps and then serveSession has returned, the acceptor is gone and no stream is left behind |
| Handoff.AcceptorChoices | internal/exit/broker.go:104-124 | stop and the server's readiness alone decide each of the acceptor's choices |
| Handoff.AcceptorUnwinds | internal/exit/broker.go:103-125 | after serveSession has returned the acceptor makes at most three more steps, is not stuck before it is gone, and then holds nothing |
| Backoff.Validate | internal/transport/timing.go:66-94 | no complaint exactly for a valid schedule, and each complaint exactly for its reason, in order |
| Backoff.BaseNext | internal/transport/connector.go:94-94 | min(MinBackoff·2^k, MaxBackoff) obeys the incremental doubling and stays within the two bounds |
| Backoff.AuthenticatorBackoff | internal/transport/authenticator.go:146-161 | the loop form returns min(base + jitter, MaxBackoff) wherever nothing overflows, so it lies between the base and base + MinBackoff·JitterRatio |
| Backoff.AuthenticatorIsBaseIff | internal/transport/authenticator.go:146-161 | for each random number: right for all attempts if and only if no doubled value reaches 2^62 and MaxBackoff plus the jitter fits int64 |
| Backoff.SmallCeilingFits | internal/transport/authenticator.go:146-161 | MaxBackoff < 2^62 is enough, whatever the random number |
| Backoff.JitterBounds | internal/transport/authenticator.go:155-155 | jitter, with both products rounded, is between 0 and MinBackoff·JitterRatio as the program rounds it |
| Backoff.JitterExact | internal/transport/authenticator.go:155-155 | with exact arithmetic it is r·MinBackoff·JitterRatio rounded down |
| Backoff.JitterMonotone | internal/transport/authenticator.go:155-155 | with any rounding it is 0 for r = 0 and never less for a larger r |
| Backoff.ConnectorIsBase | internal/transport/connector.go:81-94 | the incremental form equals min(MinBackoff·2^k, MaxBackoff), the jitter-free value of the loop form |
| Backoff.DoublingOverflows | internal/transport/connector.go:94-94 | doubling a delay of at least 2^62 ns gives a negative one |
| Backoff.ConnectorIsBaseIff | internal/transport/connector.go:81-94 | the incremental form is right for all k if and only if MaxBackoff < 2^62 ns |
| Framing.Reader.Read | internal/transport/framing.go:30-44 | the environment's Read: some bytes off the front, none only at the end |
| Framing.Reader.ReadFull | internal/transport/framing.go:30-44 | exactly n bytes and nothing more, or everything there was and an error |
| Framing.Reader.ReadFrame | internal/transport/framing.go:30-44 | the frame or error, and the bytes left behind, do not depend on chunking |
| Framing.Writer.Write | internal/transport/framing.go:48-62 | the environment's Write: some prefix goes out, an honest writer reports a short one, and the call is logged |
| Framing.Writer.Frame | internal/transport/framing.go:48-62 | the header is written first and the body only if that succeeded; each failure names the call that failed; with an honest writer success means exactly one whole frame |
| Framing.Uint32RoundTrip | internal/transport/framing.go:48-62 | the big-endian length is read back for every 32-bit value |
| Framing.HeaderBytes | internal/transport/framing.go:48-62 | the most significant byte goes first |
| Framing.WrittenIsWholeFrameIff | internal/transport/framing.go:48-62 | success means a whole frame if and only if the header was written whole |
| Framing.FailureLeavesPrefix | internal/transport/framing.go:48-62 | with an honest writer, what went out is always a prefix of the frame |
| Framing.RoundTripIff | internal/transport/framing.go:30-62 | a written frame is read back with what follows untouched, if and only if its body has at most 4096 bytes |
| Framing.OversizedIsRefused | internal/transport/framing.go:30-44 | bodies of 4097 to 2^32-1 bytes are refused after consuming exactly the header |
| Framing.WrappedLengthMisreads | internal/transport/framing.go:48-62 | from 2^32 bytes on a reader takes a part of the body for the whole when the wrapped length fits |
| Framing.StrictPrefixFails | internal/transport/framing.go:30-44 | every strict prefix of a frame is an error: EOF at 0 or 4 bytes, unexpected EOF elsewhere |
| Framing.ListRoundTrip | internal/transport/framing.go:30-62 | repeated reading recovers exactly the list of bodies and leaves the following bytes untouched |
| Framing.ReadFrames | internal/transport/framing.go:30-44 | reading n frames off one chunked connection computes that repeated reading |
| Handshake.Verify | internal/transport/handshake.go:42-54 | accepts exactly an expected role whose token is non-empty and equal, and reports an unknown role first, an empty token second |
| Handshake.PlainCodecIsFaithful | internal/transport/records.go:53-85 | the codec contract that the exchange rests on is met by a concrete codec, for every ASCII hello that fits a frame |
| Handshake.ReadsWholeFrame | internal/transport/framing.go:30-44 | an exact-length reader that has a frame has exactly the one that was sent, and nothing behind it |
| Handshake.ClientKeepsInv | internal/transport/authenticator.go:62-118 | every step of the client keeps what both sides know of each other |
| Handshake.RelayKeepsInv | internal/transport/handshake.go:70-131 | every step of the relay keeps what both sides know of each other |
| Handshake.RelayAlwaysAnswers | internal/transport/handshake.go:70-120 | a relay that has read the client's frame answers a valid hello, with ok or with the error response, and answers nothing else |
| Handshake.ClientSessionIsEarned | internal/transport/authenticator.go:62-118 | a client session implies that the relay validated the hello, trusted role and token and wrote ok with this session id; the client's mux starts right behind that frame |
| Handshake.RelaySessionIsEarned | internal/transport/handshake.go:70-120 | a relay session implies the same trust, a client role, and a mux that starts right behind the hello |
| Handshake.SessionsAgree | internal/transport/handshake.go:70-120 | when both sessions exist they agree on role and id |
| Handshake.UntrustedGetsNothing | internal/transport/handshake.go:70-120 | an untrusted client gets no session on either side, and no byte beyond the error frame |
| Handshake.AnyPeerMustEarn | internal/transport/handshake.go:70-120 | whatever bytes a peer sends, a relay session implies that the bytes consumed were exactly the stream's first frame, and that it parses to a valid hello with a trusted role and token |
| Handshake.TrustedConnects | internal/transport/handshake.go:70-120 | for a trusted client whose records fit, a run in which both sides get the session |
| Handshake.ConnectIff | internal/transport/records.go:53-76 | both sides can get a session if and only if the hello is valid, role and token are trusted and both records fit a frame |
| Handshake.RejectIff | internal/transport/handshake.go:83-88 | the client can be told at once that it was rejected, by version 1, status "error" and code "authentication_failed", if and only if its hello is valid, role and token are not trusted and both records fit a frame |
| Handshake.ExchangeRun | internal/transport/handshake.go:70-120 | for every valid hello that fits, a run in which the client reads the relay's answer, whichever it is, and acts on it |
| Handshake.ClientOutcomeIff | internal/transport/authenticator.go:74-89 | a response makes a session exactly with version 1 and status "ok", a rejection with its reason exactly with status "error", and a failure otherwise |
| Handshake.AnyRelayIsHeardExactly | internal/transport/authenticator.go:62-118 | whatever bytes arrive at a client, its session or rejection comes from the first whole frame alone, and the mux starts right behind it |
| Handshake.MuxDelivers | internal/transport/authenticator.go:92-118 | over a connection with both sessions, what one mux writes is what the other reads next |
| Handshake.AnyChunk | internal/transport/framing.go:30-62 | both sides read and write in pieces of any size, never past the frame and never the body of an oversized one |
| Handshake.CanGiveUp | internal/transport/authenticator.go:62-90 | until the verdict either side can give up, and then has no session |
| Proxy.WriteFull | internal/proxy/listener.go:137-149 | what goes out is a prefix of the data, success means all of it, and it fails exactly when the last Write failed or took nothing |
| Proxy.ForwardRequest | internal/proxy/listener.go:115-135 | success means exactly greeting and request went out and exactly the two bytes of the no-auth selection were consumed; no request byte precedes that selection; each error has its cause, in the writer or in the bytes read |
| Redaction.RedactPrintsExpected | internal/logging/redacting.go:81-96 | what a redacted tree prints is exactly the reference: sensitive entries masked, every other leaf kept, in order |
| Redaction.RedactMasksByPath | internal/logging/redacting.go:81-96 | compared with a handler without keys, exactly the leaves with no sensitive key on their path are kept, in order, and everything else printed is a mask at the first sensitive key |
| Redaction.RedactSettles | internal/logging/redacting.go:81-96 | no attribute at any depth with a sensitive key comes out unmasked |
| Redaction.SettledIsFixed | internal/logging/redacting.go:81-96 | a tree with nothing to mask passes through unchanged |
| Redaction.RedactIdempotent | internal/logging/redacting.go:81-96 | redacting twice is redacting once |
| Redaction.SameLowerIsMasked | internal/logging/redacting.go:99-101 | an attribute whose key has the same lower form as a registered one is masked |
| Redaction.OtherKeysAreKept | internal/logging/redacting.go:81-101 | any other leaf is kept |
| Redaction.LazyLimit | internal/logging/redacting.go:86-86 | a lazy value is resolved if it needs fewer than a hundred calls |
| Redaction.Handler.constructor | internal/logging/redacting.go:24-26 | wraps the given handler with a new, empty key map |
| Redaction.Handler.RegisterSensitive | internal/logging/redacting.go:30-34 | exactly the lower-cased keys are added |
| Redaction.Handler.Handle | internal/logging/redacting.go:47-54 | the record handed on prints the masked reference, keeps every leaf on a clean path, and is masked at every depth |
| Redaction.Handler.Derive | internal/logging/redacting.go:63-66 | the copying loop gives the child a map of its own with exactly the parent's keys |
| Redaction.Handler.WithAttrs | internal/logging/redacting.go:58-68 | a fresh child with a fresh map of the same keys and the masked attributes bound |
| Redaction.Handler.WithGroup | internal/logging/redacting.go:72-78 | a fresh child with a fresh map of the same keys and the group opened |
| Redaction.CallKeepsSafe | internal/logging/redacting.go:30-78 | any call on any handler of a family keeps every bound piece and emitted record masked |
| Redaction.EverythingIsMasked | internal/logging/redacting.go:30-101 | after any sequence of calls on a new handler and its descendants, nothing whose key was registered when it was bound or logged is unmasked in the sink |
| Redaction.CallOne | internal/logging/redacting.go:30-78 | on handlers in the heap with maps of their own, one call does what it does on values, keeps all maps distinct, and leaves every other handler's keys unchanged |
| Redaction.CallAll | internal/logging/redacting.go:30-78 | the same for any sequence of calls: the records emitted are exactly those the values put into the sink, and a handler keeps its keys whatever its parent, children and siblings register |
| Redaction.CallOnNew | internal/logging/redacting.go:24-78 | from a new handler on, no two descendants ever share a key map, and every record emitted is masked for the keys registered when it was logged |
| Access.AllowedIff | internal/exit/access.go:27-55 | for every 4- and 16-byte address the policy is the complement of the refused address blocks, written as prefixes of RFC 1918, RFC 4193 and RFC 4291 |
| Access.AllowedV4 | internal/exit/access.go:27-61 | the same for IPv4, block by block |
| Access.AllowedV6 | internal/exit/access.go:27-55 | the same for IPv6, block by block |
| Access.MappedSame | internal/exit/access.go:27-55 | an IPv4 address and its mapped form get the same answer |
| Access.MalformedPasses | internal/exit/access.go:27-55 | bytes of any other length are permitted |
| Access.DialledIsPermitted | internal/exit/handler.go:150-177 | every dial goes to the normalised destination, which is permitted and in no refused block |
| Access.ConnectEffects | internal/exit/handler.go:150-202 | for every IPv4 and IPv6 destination and however the network behaves: a dial exactly for a permitted destination and before all else, exactly one reply and which one, forwarding exactly when dial, reply and deadline succeeded and only between the reply and the close, and a target that was reached closed last |
| Admission.Semaphore.constructor | internal/proxy/listener.go:47-47 | nothing is taken |
| Admission.Semaphore.TryAcquire | internal/proxy/listener.go:172-179 | takes a place exactly when one is free, without waiting |
| Admission.Semaphore.Release | internal/proxy/listener.go:181-186 | gives back one place, or takes the default branch exactly when nothing was taken |
| Admission.StepKeepsInv | internal/exit/resolver.go:71-93 | every step of any number of goroutines keeps occupancy equal to the tokens held |
| Admission.OccupancyIsExact | internal/proxy/listener.go:76-93 | over whole runs occupancy equals the admitted, unreleased goroutines, never exceeds the capacity, and no release finds the channel empty |
| Admission.ProxyAdmitsAtMost256 | internal/proxy/listener.go:20-47 | the proxy never has more than 256 admitted connections, and its release never takes the default branch |
| Admission.EverybodyGetsThrough | internal/exit/resolver.go:71-93 | at most three steps for each arrival, and when nobody can move everybody was refused or is through, with all places given back |
| Admission.RefusedIffFull | internal/proxy/listener.go:172-179 | a connection is refused, and a lookup waits, exactly while all places are taken; a lookup gives up exactly when its base is done |

## Left out

- RelayService.SlotHasOneOwner: covers runs with up to 2^64 registrations and vacates, because it is false beyond (`RelayService.OneOwnerIff`).
- RelayService.VacateOnlyOwn: the same bound, for the same reason (`RelayService.VacateOnlyOwnIff`).
- RelayService.NewestHolds: the same bound, for the same reason (`RelayService.NewestHoldsIff`).
- RelayService.EvictedIsClosedOnce: covers runs with up to 2^64 + 1 registrations and vacates, because it is false beyond (`RelayService.ClosedOnceIff`).
- Redaction.EverythingIsMasked: speaks of attribute keys; the name given to WithGroup is passed on unmasked, as in the code.
- Admission.OccupancyIsExact: the resolver's limiter is made per served stream, so for lookups the bound holds per stream and not for the whole exit.
- Progress in chains with a connection that closes entirely or not at all on CloseWrite: `Delivery` speaks of half-closing connections.
- Update in place and aliasing inside the concurrent protocols: their state is a value that each atomic step replaces; only the lock regions of registry, service and bridge are also given as classes.
- Joining of bridge pairs: `Service.Run` does not wait for them, and nothing is claimed about them after it returns.
- TLS dialling, trust pools and yamux configuration: thin wrappers over libraries that are not part of this model.
- The SOCKS5 parser, the reply encoder and the encoding of a request: they belong to go-socks5; only the no-auth exchange of section 3 of RFC 1928 appears.
- JSON text syntax: an abstract codec with a round trip stands in for it.
- Real time, timer precision, the distribution of jitter and of session ids: nondeterministic within their bounds.
- The close-once signal of a session (internal/transport/session.go): a session is open or ended, and ending it again changes nothing.
- `Authenticator.Run`'s own retry loop: each turn waits as `Backoff.AuthenticatorBackoff` says and counts one attempt.
- The glue of `Listener.Run`, `Listener.bridge`, `ServeConn`'s deadline watcher, `authMethods`, `connectOnlyRule` and option defaults: single-branch facts.
- The byte tally of `counterConn` and the address tags of stream adapters: read by log lines only.
- Flags, configuration loading, log files, scripts and containers.
