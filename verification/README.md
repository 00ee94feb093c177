# browserserve: a verified model of its session bookkeeping

browserserve gives every WebSocket client its own browser. What is hard about it is concurrent
bookkeeping: which slot, browser, token, socket or byte belongs to whom while clients come and go,
launches fail, windows expire and the server shuts down. This project models that bookkeeping in
Dafny 4.11 and proves what it keeps, for every input and every interleaving.

`dafny verify dfyconfig.toml` checks everything.

| file | component |
|---|---|
| `PoolModel.dfy` | the warm pool as an object, and as a transition system of any number of claimers, the replenisher, background destroys, `close` and resizing |
| `PoolCounting.dfy`, `PoolPlaces.dfy`, `PoolBounds.dfy`, `PoolRest.dfy`, `PoolGap.dfy`, `PoolSteps.dfy` | what each event does, slots, the place of every browser, how much there can be at once, what happens after `close`, and between the closed test and the push |
| `QueueCounter.dfy` | the bounded wait queue with every atomic access as a step |
| `Pipe.dfy`, `Serve.dfy`, `BrowserStream.dfy`, `PlayedOut.dfy`, `ServeTask.dfy` | NUL framing over arbitrary reads, one session across many clients, and what becomes of its browser's output |
| `Resume.dfy`, `ResumeWorks.dfy` | parking, tokens, hand-off channels and sockets: what never happens, and what does |
| `ProfileStore.dfy`, `Capture.dfy` | the profile hand-off store, and profile sessions on top of it |
| `TreeSum.dfy` | the process-tree sum |
| `Socks.dfy`, `Upstream.dfy`, `Addresses.dfy` | the SOCKS5 client, proxy addresses, and what they mean byte by byte |
| `Lists.dfy`, `Flags.dfy`, `ProxyFlags.dfy` | the browser's command line, and the proxy it comes to |
| `Manifest.dfy` | a profile's files as a manifest, and back |
| `Admission.dfy` | `/pressure` and `/ready` beside what the handler and the pool do |
| `Calibration.dfy` | boot calibration beside the handler and the pool |
| `Prelude.dfy` | shared datatypes |

**Granularity.** One event of the pool, the resume protocol and the profile store is the code one
task runs between two awaits (in `Resume`, one locked section or channel operation). The queue counter
is finer: the increment, the comparison and the guard's drop are separate steps. Events carry every
outside choice as an argument (which browsers are alive, which waiter gets a permit, whether a launch
fails, which pending send is cut off), so a statement about all runs is a statement about all schedules of
these steps.

**Form.** Objects that the source updates in place are classes whose methods are proved against
functions (`Pool`, `CdpReader`, `ResumeRegistry`, `Store`, `Stream`, `Destination`); loops are loops.
The transition systems use the same functions.

**Properties that are false as one might state them**, with the exact condition proved and the
failing side shown:

- lowering the ceiling keeps slots and permits in step: `PoolCounting.ResizeConservesIff`, `PoolCounting.ResizeCanOvercommit`
- at most ceiling + 1 living sessions: `PoolBounds.LivingBounds`, `PoolBounds.LivingBoundIsTight`
- no session is left after `close`: `PoolGap.LeaksIffPushedLate`, `PoolGap.LeakIsReachable`
- one client message is one frame: `Serve.ClientMessagesArriveIff`, `Serve.NulSplitsAMessage`
- a browser that died is not captured from: `Capture.WindowHandsBackIff`, `Capture.BridgeHandsBackIff`, `Capture.DeadBrowserIsCaptured`
- a lazily swept store is an eagerly expiring one: `ProfileStore.LateDepositShows`, `ProfileStore.LateDepositDiverges`
- a feature switch is read as the union: `Flags.MergeableSwitch`
- a proxied session's proxy is its relay: `ProxyFlags.RelayIsEffectiveIff`, `ProxyFlags.AllowedYetDirect`
- Basic credentials split back into the login: `Upstream.BasicSplitsIff`
- a manifest can be extracted into an empty root: `Manifest.EmptyRootSucceedsIff`
- a native store is what lies at its path: `Manifest.OpenedIsLookedUpIff`, `Manifest.LinkedStoreIsOpened`
- a ready server has a free slot: `Admission.ReadyWithoutSlotIff`, `Admission.ReadyYetRefused`

**Where code and description differ**, the model follows the code. The extractor's comment says
paths containing `.` are rejected; Rust's `Path::components` removes an inner `.`, so `a/./b` is written
as `a/b` (`Manifest.InnerDotIsAccepted`). The packer's comment says links are skipped; a link in the
place of a whole store is followed (`Manifest.LinkedStoreIsOpened`). `/ready` is described as "a session
could be served right now"; it can be true while every slot is taken. `profile_session` says that a browser
that died mid-session must not overwrite the stored profile; it can, when the client's end cuts off the
bridge's farewell. The session-proxy policy is there so that no operator flag takes a session's proxy
away; it does not look at `--no-proxy-server`.

## Model

| member | source | states |
|---|---|---|
| `PoolModel.Pool.AcquireSlot` | src/pool.rs:206-236 | closed, a slot, a place in the queue or refusal, with exactly the counter changed that the answer stands for; the counter is back after a refusal |
| `PoolModel.Pool.PopLive` | src/pool.rs:249-266 | the pop loop leaves the deque, the dead sessions and the found one as `TakeWarm` says |
| `PoolModel.Pool.CullWarm` | src/pool.rs:433-454 | the culler's loop splits the deque as `Cull` says |
| `PoolModel.Pool.Close` | src/pool.rs:311-328 | intake stops and exactly the warm sessions are drained |
| `PoolModel.Pool.GetStats` | src/pool.rs:332-352 | the counters derived from live state, within their bounds while accepting |
| `PoolModel.Pool.SetMaxSessions` | src/pool.rs:359-367 | ceiling and free permits move together except for the shortfall that could not be forgotten |
| `PoolModel.Pool.Decide` | src/pool.rs:388-406 | a launch starts exactly when warm + launching is below min_ready, below the ceiling and below the free permits |
| `PoolCounting.StepCounting` | src/pool.rs:206-307 | every event keeps slot conservation, the waiting and launching counters, the stock floor and "free permits only when nobody waits" |
| `PoolCounting.SlotConservation` | src/pool.rs:103-138 | in every reachable state free + held + abandoned slots = ceiling + permits a lowered ceiling could not take back |
| `PoolCounting.ResizeConservesIff` | src/pool.rs:354-367 | a resize keeps free + held = ceiling if and only if the new ceiling is at least the slots held |
| `PoolCounting.ResizeCanOvercommit` | src/pool.rs:359-367 | a run in which lowering the ceiling leaves more slots than the ceiling |
| `Calibration.CeilingBeforeClaims` | src/server/ws.rs:135-141 | with the flag read and the pool reached as separate events, the handler's test lets no claim in before the ceiling is set, in every run of the server |
| `Calibration.CalibrationConserves` | src/server.rs:258-262 | so free + held + abandoned slots = ceiling in every state of every run of the server, before and after calibration sets it |
| `Calibration.CheckPassesIff` | src/server/ws.rs:106-146 | a request passes exactly when the flag is down and no test of the handler stands in its way |
| `Calibration.CalibrationFinishes` | src/server.rs:258-262 | calibration can always set its ceiling, at least one, and clear the flag |
| `PoolCounting.CountersCoverTheirHolders` | src/pool.rs:370-376 | no decrement of the waiting or launching counter can underflow |
| `PoolCounting.IdleExcessNeverCulls` | src/pool.rs:433-453 | warm + launching never exceeds min_ready, so the culler removes exactly the dead and the too old |
| `PoolPlaces.TakeWarmSplits` | src/pool.rs:249-266 | the pop loop takes a dead prefix and at most the live session right behind it |
| `PoolPlaces.CullSplits` | src/pool.rs:439-454 | the culler divides a deque without repetition into kept and removed, nothing lost, nothing in both |
| `PoolPlaces.CullKeepsOrder` | src/pool.rs:439-454 | kept and removed sessions are each in the deque's order |
| `PoolPlaces.StepPlaced` | src/pool.rs:98-145 | every event keeps the agreement of deque, claims, background destroys, replenisher and logs with one place per session |
| `PoolSteps.WarmHit` | src/pool.rs:245-259 | a plain claimer with a slot is given the first live warm session, by index, and no other; the dead ones before it go to the background, those behind it stay |
| `PoolSteps.WarmMiss` | src/pool.rs:249-268 | with none alive, the whole stock goes to the background and the claimer launches |
| `PoolSteps.DedicatedLaunch` | src/pool.rs:294-300 | a dedicated claimer leaves stock, background and the log of hand-outs alone and launches |
| `PoolSteps.ArrivalAnswered` | src/pool.rs:206-236 | which of the four answers an arrival gets, by the pool's fields, and the one counter it moves |
| `PoolSteps.LaunchIsHandedOut` | src/pool.rs:270-281 | a launch that succeeds is held by its claimer, once, and touches nobody else |
| `PoolSteps.SlotGoesOn` | src/pool.rs:133-138 | a slot given back goes to exactly one waiting claimer, or is free if nobody waits; only a finished destroy enters the log |
| `PoolSteps.DestroyKeepsSlot` | src/pool.rs:303-307 | a claim given up keeps its slot until its session is destroyed |
| `PoolSteps.GrantedGoesOn` | src/pool.rs:222-234 | a claimer granted a permit can go on with it, in every reachable open state |
| `PoolSteps.CulledIff` | src/pool.rs:439-451 | session by session: culled if and only if dead, at the maximum age, or idle too long behind min_ready kept ones |
| `PoolSteps.CulledAreDestroyed` | src/pool.rs:385-406 | what was culled is destroyed in order, and only then a launch is decided on, exactly when stock and headroom allow |
| `PoolSteps.WarmLaunchJoins` | src/pool.rs:405-423 | a warm launch joins the end of an open pool's stock, and is discarded on a closed one |
| `PoolSteps.CloseDrains` | src/pool.rs:311-328 | close sends the whole stock to the background and leaves claims and replenisher as they are |
| `PoolSteps.ResizeGrants` | src/pool.rs:359-367 | a higher ceiling serves waiting claimers first, a lower one takes back only free permits |
| `PoolPlaces.ExactlyOnePlace` | src/pool.rs:245-328 | each created session occurs exactly once in the pool's data, is handed out at most once and destroyed at most once |
| `PoolPlaces.EverySessionCounted` | src/pool.rs:98-145 | created = warm + held + at the replenisher + in the background + destroyed |
| `PoolPlaces.ClosedPoolLeaksNothing` | src/pool.rs:405-423 | a closed pool at rest has destroyed exactly what was created |
| `PoolRest.StepWork` | src/pool.rs:378-431 | after close every step of a task leaves strictly less work, and arrivals, close and resize add none |
| `PoolRest.StuckIffQuiet` | src/pool.rs:303-328 | a closed pool in which no task can step is at rest, and conversely |
| `PoolRest.ClosedPoolComesToRest` | src/pool.rs:309-328 | after close the tasks take a bounded number of steps, and when none can step created = destroyed |
| `PoolGap.LeaksIffPushedLate` | src/pool.rs:409-420 | with the closed test and the push apart, a closed pool at rest has left undestroyed exactly what was pushed after the last close, one session at most |
| `PoolGap.LeakIsReachable` | src/pool.rs:409-420 | a close between the test and the push leaves a session that nobody destroys |
| `PoolBounds.SlotAndStockBounds` | src/pool.rs:245-300 | held + warm + launching: claims alone, at most ceiling + 1; with dedicated launches, ceiling + min(min_ready, ceiling); after lowering, plus the shortfall |
| `PoolBounds.LivingBounds` | src/pool.rs:388-458 | with the sessions the culler has removed and not yet destroyed counted too: at most ceiling + min(min_ready, ceiling); undestroyed sessions are at most as many plus those in the background |
| `PoolBounds.LivingBoundIsTight` | src/pool.rs:433-458 | plain claims alone reach ceiling + min(min_ready, ceiling), for every ceiling and floor |
| `PoolBounds.BackgroundIsUnbounded` | src/pool.rs:252-266 | sessions being destroyed in the background have no bound, with plain claims alone |
| `PoolBounds.PlainBoundIsTight` | src/pool.rs:388-423 | held + warm + launching = ceiling + 1 is reached by plain claims, for every ceiling |
| `PoolBounds.DedicatedBoundIsTight` | src/pool.rs:294-300 | held + warm + launching = ceiling + min(min_ready, ceiling) is reached, for every ceiling and floor |
| `QueueCounter.AddSpreads` | src/pool.rs:214-215 | a new ticket never makes more than k live guards hold tickets up to k |
| `QueueCounter.QueueBound` | src/pool.rs:213-232 | in every interleaving of atomic steps the counter is the number of live guards and at most max_queue claimers are parked |
| `QueueCounter.RefusedIff` | src/pool.rs:214-220 | having compared, a claimer is refused if its ticket exceeds max_queue and parked otherwise |
| `QueueCounter.QueueFills` | src/pool.rs:213-232 | the bound is attained: claimers coming one by one all park, up to max_queue |
| `QueueCounter.CounterOvershoots` | src/pool.rs:214-216 | the counter itself is not bounded by max_queue |
| `QueueCounter.RefusedWithEmptyQueue` | src/pool.rs:216-220 | a claimer can be refused while nobody is parked |
| `Pipe.CdpReader.TakeFrame` | src/chrome/pipe.rs:165-182 | one frame off the buffer, need for more, or an overrun, with the buffer unchanged unless a frame came out |
| `Pipe.CdpReader.RecvRaw` | src/chrome/pipe.rs:75-89 | every ending, a dropped call included, keeps "bytes read = frames returned, terminated, + buffer" |
| `Pipe.RecvAccounts` | src/chrome/pipe.rs:75-89 | one receive, dropped or failed ones included, takes reads from the front and keeps every byte of them in its frame or the buffer |
| `Pipe.DecodeIsDecoding` | src/chrome/pipe.rs:165-182 | decoding splits any stream into frames within the cap, then an unterminated rest or an overrun |
| `Pipe.DecodingIsUnique` | src/chrome/pipe.rs:165-182 | no other split of the stream meets that description |
| `Pipe.CutsDoNotMatter` | src/chrome/pipe.rs:75-89 | however the stream is cut into reads, the frames and the ending are those of the whole stream |
| `Pipe.WaitEndsAs` | src/chrome/pipe.rs:80-88 | how a wait without a frame ends: end of file and a broken pipe as Closed, any other failure as Io |
| `Pipe.FramesRoundTrip` | src/chrome/pipe.rs:40-44 | any frames within the cap survive the wire |
| `Pipe.OversizeIsCaughtInPlace` | src/chrome/pipe.rs:165-182 | a frame beyond the cap is refused at its own position, terminated or not |
| `Serve.CloseExit` | src/bridge.rs:155-161 | a close is deliberate exactly without a code or with 1000 |
| `Serve.PumpClientToBrowser` | src/bridge.rs:125-151 | the messages before the ending event, each once, in order, one frame each; and why the pump ended |
| `PlayedOut.ClientEndsAs` | src/bridge.rs:125-161 | the client pump ends at the first event that does not pass by, and as what, event by event |
| `PlayedOut.ClientSends` | src/bridge.rs:139-151 | the messages before that event go out in order, and no other |
| `Serve.ClientMessagesArriveIff` | src/bridge.rs:125-151 | a browser reading those frames gets the client's messages, however its reads are cut, if and only if each is NUL-free and within the cap |
| `Serve.NulSplitsAMessage` | src/bridge.rs:125-151 | a message that is one NUL byte arrives as two frames |
| `ServeTask.Receive` | src/chrome/pipe.rs:75-89 | one receive on behalf of an owner: its exact result, buffer, unused reads and log entry |
| `ServeTask.PumpBrowserToClient` | src/bridge.rs:163-185 | exit, waits, buffer and unused reads are what the script's turns come to; after a failed read the exit waits for the farewell, during which another branch may win |
| `ServeTask.BridgeSession` | src/bridge.rs:58-98 | which pump or the shutdown ends the bridge, the client's end during a pending send included, and with what the reader is left |
| `ServeTask.DiscardWhileParked` | src/server/resume.rs:119-130 | frames are thrown away until another branch is chosen or a read fails, exactly as the script's turns come to |
| `ServeTask.CleanSlate` | src/server/resume.rs:156-195 | every call of the clean-up is made, failed or cut-off ones included, with the frames it takes |
| `ServeTask.ServeSession` | src/server/resume.rs:89-145 | outcome, round reached, waits, buffer and unused reads are exactly those of `SessionOf`, for every script, and the reader has received exactly the bytes of the reads used |
| `PlayedOut.PumpGoesOn` | src/bridge.rs:163-185 | the browser pump goes on as long as frames come and are sent, and its exit is read off its last wait |
| `PlayedOut.DiscardGoesOn` | src/server/resume.rs:119-130 | a parked session goes on discarding as long as frames come |
| `PlayedOut.SessionIsPlayedOut` | src/server/resume.rs:97-145 | every round up to the one reached is played out to its own end: parked exactly when the client was lost, cleaned up exactly when one came, still running only where the script is open |
| `BrowserStream.SessionPlays` | src/server/resume.rs:89-145 | the waits of all bridges, parks and clean-ups read like one uninterrupted reader |
| `BrowserStream.StreamIsPartitioned` | src/chrome/pipe.rs:127-136 | for every script: reads used, then unused, are those there were and those that arrived; the frames of the buffer and the bytes used are the frames taken, in order, then those still buffered |
| `BrowserStream.WaitsFollowTheScript` | src/server/resume.rs:97-145 | the waits an owner made are the first that the script has for that phase of that round, all of them for a finished clean-up, and phases never alternate |
| `BrowserStream.OutcomeIsDetermined` | src/server/resume.rs:100-139 | the browser died if and only if the last wait was fatal; otherwise the outcome is what the script says of the round that was reached, all earlier rounds having been resumed |
| `BrowserStream.DiedIffLastFatal` | src/bridge.rs:167-176 | a failed read of a park, or of a bridge whose farewell was not cut off by another branch, is the last wait and ends the session as dead; no earlier wait is of that kind |
| `Resume.ResumeRegistry.Claim` | src/server/resume.rs:60-63 | finds a parked token once and leaves every other token alone |
| `Resume.StepRegistry` | src/server/resume.rs:97-145 | every event keeps "in the registry exactly while parked and unclaimed" |
| `Resume.StepDelivery` | src/server/resume.rs:110-131 | every event keeps "a channel has delivered or may still deliver, not both" |
| `Resume.AlwaysDistinct` | src/server/ws.rs:357-387 | in every reachable state no socket is held by two sessions or channels, or delivered twice |
| `Resume.ResumeSafety` | src/server/resume.rs:60-145 | a token is claimable exactly while its session is parked and unclaimed; a park delivers at most one socket; sessions never share a client |
| `Resume.OverForGood` | src/server/resume.rs:132-145 | after `serve` returned, nothing makes the token claimable again |
| `ResumeWorks.LookupClaims` | src/server/resume.rs:60-63 | a client with a claimable token gets its sender and takes the token, in every reachable state |
| `ResumeWorks.DeliveredIsTheClient` | src/server/resume.rs:132-143 | the socket a session receives is its client until that client breaks or the session ends, whatever else happens |
| `ResumeWorks.SentIsReceived` | src/server/ws.rs:374-385 | a socket sent to a listening session is what that session receives next |
| `ResumeWorks.OverOnlyFrom` | src/server/resume.rs:100-139 | a session is over exactly by its own end, or by leaving a wait that brought no client |
| `ResumeWorks.NoClientOnlyFrom` | src/server/resume.rs:118-130 | a wait ends without a client exactly by a deadline, a dropped sender or a loss |
| `ResumeWorks.ReconnectWorks` | src/server/resume.rs:97-145 | in every reachable state a broken session can be taken up again, and everything else is as before |
| `ProfileStore.Store.SweepEntries` | src/server/profiles.rs:170-180 | keeps exactly the entries within their limit |
| `ProfileStore.Store.DropOffProfile` | src/server/profiles.rs:72-90 | swept, bounded, pending under the minted token |
| `ProfileStore.Store.ClaimProfile` | src/server/profiles.rs:95-110 | a pending profile is handed out once and becomes in flight |
| `ProfileStore.Store.DepositResult` | src/server/profiles.rs:114-124 | only an in-flight entry becomes ready; no sweep |
| `ProfileStore.Store.PickUpProfile` | src/server/profiles.rs:129-148 | a ready payload leaves the store once |
| `ProfileStore.Store.FinishWithoutResult` | src/server/profiles.rs:154-166 | only an in-flight entry is released |
| `ProfileStore.SweptIff` | src/server/profiles.rs:170-180 | an entry is there until its age reaches a day in flight, or the store's two minutes |
| `ProfileStore.HandedOutOnce` | src/server/profiles.rs:95-148 | a claim is given a pending profile and a pick-up a ready one, if it is there, once; other entries stay |
| `ProfileStore.OnlyInFlight` | src/server/profiles.rs:114-166 | a deposit and a release touch an entry in flight, however old, and nothing else |
| `ProfileStore.OpRefines` | src/server/profiles.rs:72-180 | every call but a late deposit answers as the eagerly expiring store and keeps the correspondence |
| `ProfileStore.LateDepositShows` | src/server/profiles.rs:114-124 | a pick-up after a deposit differs from the ideal store's if and only if the deposit came after the entry's day |
| `ProfileStore.InFlightSinceClaim` | src/server/profiles.rs:95-110 | an in-flight entry carries the time of a claim that was given its token's profile |
| `ProfileStore.LazyStoreIsIdeal` | src/server/profiles.rs:72-180 | all answers of every run equal the ideal store's when no deposit finds an in-flight entry past its day |
| `ProfileStore.TimelyStoreIsIdeal` | src/server/profiles.rs:72-180 | in particular when each deposit is less than 24 hours after the claims that were given its profile |
| `ProfileStore.LateDepositDiverges` | src/server/profiles.rs:114-124 | a run with a late deposit whose answers differ |
| `Capture.ServeProfile` | src/server/ws.rs:407-421 | the script decides how serving ends, with and without the resume window |
| `Capture.WindowHandsBackIff` | src/server/resume.rs:100-139 | through the window the pipe comes back if and only if no wait was fatal and the reached round ended with a deliberate close, an idle timeout or an expired window |
| `Capture.BridgeHandsBackIff` | src/bridge.rs:43-55 | without the window it comes back if and only if no wait was fatal and the shutdown was not chosen |
| `Capture.DeadBrowserIsCaptured` | src/server/ws.rs:506-514 | a session whose browser died deposits if the client's close cut off the farewell, and not if the farewell was sent |
| `Capture.ProfileSession` | src/server/ws.rs:435-515 | no store call while the session runs, breaks included; exactly one at the end, a deposit if and only if it had a pipe, was seeded, saves, and the script's own end hands the live pipe back |
| `Capture.FinalCallIs` | src/server/ws.rs:472-514 | a deposit of what was captured if and only if there was a pipe, it was seeded, the session is not read-only and the script's end hands the pipe back; a release otherwise |
| `Capture.HandsBackIff` | src/server/resume.rs:100-139 | that end in the script's own words, with and without the window |
| `Capture.StillServingIff` | src/server/ws.rs:407-421 | a session is being served while all its rounds were resumed or the last is left open |
| `Capture.CapturedOnce` | src/server/ws.rs:435-515 | pick-ups yield only what ended sessions captured that had a pipe, were seeded, are not read-only and got their pipe back; each at most once, never of a running one |
| `Capture.FullCycle` | src/server/profiles.rs:72-148 | dropped off, claimed, served, captured and picked up in time, a profile comes back as the session left it |
| `Capture.CaptureIsFound` | src/server/profiles.rs:129-148 | a timely capture is what a pick-up returns until it is picked up or expires |
| `Capture.StartsOnce` | src/server/profiles.rs:95-110 | a token never starts a second session |
| `TreeSum.Sum` | src/rss.rs:38-67 | None exactly without table or root; else the 64-bit-saturated sum over the reachable pids, each once, for any parent graph |
| `TreeSum.TreeIsReachable` | src/rss.rs:55-65 | the summed set is exactly what paths of parent links reach from the root |
| `TreeSum.SumAdd` | src/rss.rs:57-61 | counting one more pid adds its last recorded value once |
| `Socks.Negotiate` | src/proxy/socks.rs:27-62 | method choice and login: exactly which answers lead on, which are a login failure, and what was written and read |
| `Socks.BuildRequest` | src/proxy/socks.rs:64-81 | the request vector for every address form |
| `Socks.ReadReply` | src/proxy/socks.rs:84-104 | succeeds exactly on a complete accepting reply and stops at its end |
| `Socks.Connect` | src/proxy/socks.rs:20-104 | success exactly on complete accepting answers and a host that fits; those answers are consumed, later bytes left; a server reads back the host, as address or name, the port and the login |
| `Socks.AnswersRoundTrip` | src/proxy/socks.rs:84-104 | any accepting server's answers, for every bound-address form, end where the tunnel begins |
| `Socks.ServerRecovers` | src/proxy/socks.rs:27-82 | a server parsing sections 3 and 4 of RFC 1928 and section 2 of RFC 1929 recovers methods, login, host and port |
| `Socks.GreetingBytes` | src/proxy/socks.rs:27-52 | greeting and login, byte for byte |
| `Socks.RequestBytes` | src/proxy/socks.rs:64-82 | the request, byte for byte, for each form of target |
| `Socks.ServerBytes` | src/proxy/socks.rs:84-104 | accepting answers, byte for byte, for each form of bound address |
| `Upstream.PercentDecodeLoop` | src/proxy/upstream.rs:221-236 | the index loop decodes escapes as section 2.1 of RFC 3986 has them, or fails |
| `Upstream.DisplayRoundTrip` | src/proxy/upstream.rs:158-172 | printing any parsed address and parsing again gives the same scheme, host and port, and no login |
| `Addresses.DefaultPorts` | src/proxy/upstream.rs:27-33 | without a port: 80 for http, 443 for https, 1080 for socks5 and socks5h; with or without brackets, a final slash, blanks around it, in any case |
| `Addresses.GivenPorts` | src/proxy/upstream.rs:189-219 | with one: any port from 1 to 65535, a plus sign allowed |
| `Addresses.AfterScheme` | src/proxy/upstream.rs:70-92 | blanks around and one final slash are ignored; a path, query or fragment is refused |
| `Addresses.OtherSchemesRefused` | src/proxy/upstream.rs:70-86 | a text that starts with none of the four is refused |
| `Addresses.LoginRefused` | src/proxy/upstream.rs:238-260 | which logins are refused, and why, in the order of the tests |
| `Addresses.EscapesRead` | src/proxy/upstream.rs:221-236 | an escape takes two hexadecimal digits, or the text is refused |
| `Upstream.PrintedHostPort` | src/proxy/upstream.rs:189-219 | host and port survive printing, bracketed and colon-bearing hosts included |
| `Upstream.ParsedIsStored` | src/proxy/upstream.rs:70-114 | what parsing stores: a lower-case valid host, a port that is not zero, a valid login |
| `Upstream.LoginRoundTrip` | src/proxy/upstream.rs:70-114 | any acceptable login, escaped in any way, is recovered exactly |
| `Upstream.EscapedLoginParses` | src/proxy/upstream.rs:221-236 | every acceptable login has a spelling that parses back to it |
| `Upstream.BasicSplitsIff` | src/proxy/upstream.rs:149-155 | splitting the Basic text at its first colon recovers the login if and only if the user has no colon |
| `Upstream.ParsedLoginIsUsable` | src/proxy/upstream.rs:238-260 | every login accepted by parsing survives the Basic split, or passes the SOCKS5 length checks |
| `Flags.PushParts` | src/chrome/flags.rs:210-214 | new values are appended once |
| `Flags.MergeFeatureSwitches` | src/chrome/flags.rs:201-226 | the nested loops compute the merged flags and what is left of the operator's |
| `Flags.BuildFlags` | src/chrome/flags.rs:230-251 | the argument list, part by part |
| `Flags.MergedIsUnion` | src/chrome/flags.rs:203-217 | the merged values are exactly the built-in ones and all the operator's |
| `Flags.MergedInOrder` | src/chrome/flags.rs:203-217 | built-in values first, then what each operator flag adds, in order; no value twice that was not |
| `Flags.MergeableSwitch` | src/chrome/flags.rs:186-226 | for every operator list: occurrences and reading of a mergeable switch; a bare operator switch, and only that, silences it |
| `Flags.FeaturesAreUnited` | src/chrome/flags.rs:21-52 | with the built-in flags and operator switches written with `=`, each feature switch occurs at most once and is read as the union |
| `Flags.OtherSwitch` | src/chrome/flags.rs:230-251 | every other switch reads as its last occurrence in built-in, launch, operator flags |
| `Flags.LaunchAdds` | src/chrome/flags.rs:230-251 | sandbox off and shared memory on disk exactly when asked; pipe and profile directory always; an empty page last |
| `ProxyFlags.RelayIsEffectiveIff` | src/factory.rs:442-447 | a proxied session's effective proxy is its relay if and only if the operator's flags have no `--no-proxy-server`, `--proxy-pac-url` or `--proxy-auto-detect` |
| `ProxyFlags.PolicyLeavesOne` | src/server.rs:309-318 | where the policy allows session proxies, the browser uses the relay unless the operator sets `--no-proxy-server`, and then it goes direct |
| `ProxyFlags.AllowedYetDirect` | src/chrome/flags.rs:151-159 | the operator list `--no-proxy-server` passes `sets_proxy`, and a session allowed a proxy then goes direct |
| `ProxyFlags.TrafficKeepsToTheProxy` | src/chrome/flags.rs:161-170 | whatever the operator sets, loopback goes through a session's proxy and WebRTC keeps to it |
| `ProxyFlags.StealthYields` | src/chrome/flags.rs:113-127 | stealth adds its user agent and screen exactly where the operator has none |
| `Manifest.PackWalk` | src/profile/manifest.rs:74-95 | appends exactly the regular files of the walk, or fails on a read that fails |
| `Manifest.PackNative` | src/profile/manifest.rs:63-72 | the manifest of all stores, or failure exactly when something walked is unreadable |
| `Manifest.PackableIff` | src/profile/manifest.rs:63-95 | packing fails exactly if a store is an unreadable directory or holds something unreadable |
| `Manifest.PackedFiles` | src/profile/manifest.rs:63-95 | exactly the native files are packed, with ordinary paths none of which is or leads to another |
| `Manifest.OpenedIsLookedUpIff` | src/profile/manifest.rs:66-68 | opening a store's path finds what lies there if and only if no link is on the path |
| `Manifest.LinkedStoreIsOpened` | src/profile/manifest.rs:66-68 | a link in a store's place is followed |
| `Manifest.SafeJoin` | src/profile/manifest.rs:125-142 | accepted exactly when relative, not led by `.`, without `..` and naming something |
| `Manifest.TargetsStayBelow` | src/profile/manifest.rs:125-142 | every target is the root followed by at least one ordinary name |
| `Manifest.InnerDotIsAccepted` | src/profile/manifest.rs:131-139 | an inner `.` is removed, not refused |
| `Manifest.Destination.ExtractAll` | src/profile/manifest.rs:107-120 | writes entry by entry, stopping at the first failure with what is written kept |
| `Manifest.UnsafeStops` | src/profile/manifest.rs:97-120 | an unsafe path leaves exactly the result of the entries before it |
| `Manifest.ExtractAdds` | src/profile/manifest.rs:107-120 | any manifest, any destination: nothing existing changes, every new node is some entry's file or a directory on its way |
| `Manifest.ExtractSucceedsIff` | src/profile/manifest.rs:107-120 | success if and only if all paths are acceptable, free at the destination and pairwise apart |
| `Manifest.EmptyRootSucceedsIff` | src/profile/manifest.rs:107-120 | into an empty root, success depends on the manifest alone |
| `Manifest.NothingOutsideTheRoot` | src/profile/manifest.rs:107-142 | whatever is new is on the way to the root or the root followed by ordinary names; files strictly below |
| `Manifest.PackThenExtract` | src/profile/manifest.rs:63-120 | packing any tree and extracting into an empty root writes every entry, and the files there are exactly the native files with their bytes |
| `Admission.FullIffQueueFull` | src/server/http.rs:120-124 | in every reachable open state the "full" test holds if and only if slot acquisition answers QueueFull |
| `Admission.ReasonIs` | src/server/http.rs:113-165 | the reported reason is the first that holds, in its order, by the server's and the pool's own fields |
| `Admission.AnswerIs` | src/server/ws.rs:106-146 | the handler's answer is the first that applies, in its own order, the pool's last |
| `Admission.ReadyIs` | src/server/http.rs:58-70 | ready, by the server's and the pool's own fields |
| `Calibration.RunningIsHeld` | src/pool.rs:332-352 | in every run of the server the reported running count is the number of slots taken |
| `Admission.AvailableIff` | src/server/http.rs:113-165 | the reported reason is empty if and only if the sandbox gate is down and the handler and the pool do not refuse at once |
| `Admission.CausesAgree` | src/server/ws.rs:106-146 | report and handler each name a cause that stands, whenever one does; the sandbox cause is reported only |
| `Admission.ReadyWithoutSlotIff` | src/server/http.rs:58-70 | ready without a free slot exactly when every slot is taken and warm stock is left |
| `Admission.ReadyYetRefused` | src/server/http.rs:58-70 | a reachable state that is ready and refuses a claim with a full queue |

## Left out

- Browser launch, teardown, signals, cgroups and CDP page scripting: the factory is create (may fail), destroy and is_alive; whether a session is alive is an argument of the events.
- Tokio's semaphore, channels, `select!` and timers are taken at their documented contracts: forgetting takes at most the free permits, a released permit goes to a waiter first, any ready branch may be chosen.
- PoolPlaces.ClosedPoolLeaksNothing: at await granularity, where the closed test and the push of a finished warm launch (src/pool.rs:411 and src/pool.rs:415) are one step; `PoolGap` has them apart.
- A claim dropped after its slot was taken and during its launch has no guard; such slots are counted in the history variable `abandoned`, and what that launch does with its browser is not modelled.
- `set_max_sessions` is one step: the swap of the ceiling and the change of the permits are not interleaved with other tasks.
- PoolModel.Pool.SetMaxSessions: does not say which queued claimers get added permits; the event `Resize` of the transition system does.
- The write side of the pipe under cancellation: a send that is cut between body and terminator is not modelled, so nothing is claimed across it.
- ServeTask.CleanSlate: only as a consumer of frames; the CDP calls it makes, their message ids and their effect on the browser are not modelled.
- A socket that reaches a hand-off buffer just as the window expires is dropped with the channel; nothing is promised about it beyond never being delivered twice.
- Profile entries whose launch fails after the claim stay in flight until they expire; the capture guarantees start where `profile_session` starts.
- Each store call reads the clock once; in the source a sweep and the entry it then stamps read it separately.
- Tokens are fresh numbers and base64 is not modelled; UTF-8 validity is a parameter of the address parser.
- Manifest: path text is modelled for names that are valid text; the lossy conversion of other names is not, and neither are I/O errors of the destination other than something being in the way.
- Manifest.NothingOutsideTheRoot: about the paths that are written to; a directory link already present below the destination root is not modelled, so where such a path leads on disk is not claimed.
- `/pressure` reads the pool, the gauges and the thread limit one after the other; report and answer are compared on one snapshot. Infinite gauge values are not modelled.
- Admission.CausesAgree: for authorised plain pool sessions; authorisation, resume requests, proxy requests and profile sessions are answered before or beside these checks.
- Host probing and the capacity computed from it (src/capacity.rs, src/calibrate.rs), configuration overrides (src/config.rs), the token check (src/server/auth.rs), the single-use flag beyond its reading (src/server/single_use.rs) and the cookie filter (src/profile/cookie.rs).
- Socks.Connect: which host texts are IP addresses is the parameter `parseIp`; the standard library's address parser is not modelled.
- ProxyFlags.RelayIsEffectiveIff: reads every argument as a switch, so a bare `--` in the operator's list, after which Chromium stops reading switches, is not modelled; the precedence of the four proxy switches is Chromium's and not stated in the repository.
- src/proxy/head.rs, src/proxy/relay.rs, src/proxy/dial.rs and src/profile/localstorage.rs rest on libraries and live sockets and are not part of this model.
