# A Dafny model of Selenoid's session admission, idle timers and WsDriver protocol

The project models the parts of the Selenium hub that many goroutines share, and the binary protocol that carries
WebDriver commands over a WebSocket, and proves what they keep in every run, for every input, or in every reachable
state. `dafny verify dfyconfig.toml` checks it all.

## What is modelled

**Admission** (`Admission`, `AdmissionLaws`, `AdmissionDiscipline`, `AdmissionTheorems`, `AdmissionArrivals`, `AdmissionRace`,
`Hub`).
The queue is four channels of empty structs, so a channel is its length. Every goroutine in `Protect`, `create` or a
DELETE in `proxy` is a thread with a program counter, and every send, receive and access to the session map is a step
of its own; `Drop`, `Create` and `Release` are two steps each, and `Protect` leaves a pusher goroutine behind. Any
thread may move next, and the client may leave while it waits. Without any hypothesis the tokens are conserved, with
every half-finished operation counted, the numbers of slot holders and of running services are given exactly, and the
counters at rest are compared with the map. `OneDelete` (no DELETE passes `sessions.Get` while another for the same id is
before `sessions.Remove`) gives the bound on holders, progress, and one cancel a service; `FreshId` (no session is put
under a live id) is only needed for the counters to agree at rest, and its failures are counted. `AdmissionArrivals`
follows each request from the event that made it: who is let in, who waits, and who is turned away. `AdmissionRace` is a run
that breaks the bound: `proxy` does not look at the map again after taking the session's lock. `Hub` is the queue as four
channel objects and the hub around it; driven by any schedule they go where the transition system goes.

**Idle timers** (`IdleTimers`, `TimerHistory`, `TimerTheorems`, `LateTouches`, `SessionTimers`). A timer is a goroutine of `onTimeout`; it
fires at its deadline or quits when its channel is closed, whichever is first. Time is a discrete clock. A DELETE is two
steps: `sessions.Get`, and the part under the session's lock. `TimerHistory` derives the whole state, and what may happen
next, from the events of the run alone, so that a use is a request and not an entry of a log. The theorems say how often slots are released, exactly which
sessions can still be reaped by time and timers alone, exactly when a run never leaves a session without such a hope, and
exactly when a DELETE removes a session that is in use, with the two ways a timer's comes to do so. `SessionTimers` has the references of the code: a session
refers to a channel, a timer's goroutine to its channel and its session, and the map to session objects.

**WsDriver** (`WsFrames`, `WsExchange`, `WsWire`, `WsDriver`). `WsFrames` and `WsExchange` are the protocol as functions, one frame
at a time with nothing carried over, and `WsWire` says in bytes what a frame asks for and what a reply says. `WsDriver` is the connection as it runs, with one request struct and two byte
buffers reused for every message, the struct's `Buffer` being a view into the buffer that the reply then overwrites;
its loop is proved to send and to ask upstream exactly what the functions say.

**Session creation** (`SessionCreation`, `SessionAttempts`, `Resolution`, `JsonRewrite`, `ResponseBody`). `create` from the
request's body to the settlement of its slot: the capability checks, the loop over `firstMatch`, the attempts to get a
session, the rewriting of the request and the reading of the answer. JSON objects are mutable maps, as the decoder
makes them, and may even be shared.

**Paths, usage and keys** (`Fragments`, `Routing`, `Links`, `UsageState`, `S3Key`). Taking request paths apart and putting
them together again, the URLs under which a session is advertised, the usage report, and the placeholders of the upload key,
whose replacement one after another is compared with one simultaneous substitution, step by step.

`Wrappers` and `Tally` hold an option type, a result type, and counting in sequences.

## Assumptions

- The session's lock is not modelled for admission; that allows more interleavings than the code, so every law of all
  runs holds of the code too. `AdmissionRace.RaceAdmitsTwo` uses an interleaving that the lock does allow.
- The blocks that close a timer's channel and arm the next one take no lock in `reverseProxy`, its ticker and
  `wsdriverRoute`; they are taken to be atomic. In the timer model the part of `proxy` under the session's lock is.
- gzip, zstd, JSON text, the HTTP client and the check for a live session are parameters: functions of the model's
  callers, of which only what a hypothesis names is assumed (`Inverse`: decompressing undoes compressing).
- A link's URL is read as section 3.3 of RFC 3986 has it: its path ends at the first '?' or '#', and its escapes are
  decoded. What a client escapes on its own (spaces, say) is decoded again and taken as it was. ServeMux answers a path that
  is not clean, but for a slash at its end, with a redirect.
- The upstream has read the request's body when `Do` returns.
- A panic in `create` is recovered by the HTTP server, and nothing after it runs.

## Where the code and its documentation differ, or a promise fails

- wsdriver/README.md section 5.1 calls the request path UTF-8; the parser does not look. The model follows the parser.
- A handler that panics keeps its slot for ever. It does so on a null entry of `firstMatch`
  (`SessionCreation.NullEntryPanics`) and on an answer whose session id or WebSocket URL is not a string
  (`ResponseBody.PanicsExactly`).
- Two DELETEs of one session may release its slot twice (`AdmissionRace.RaceAdmitsTwo`, `TimerTheorems.TwoDeletesReleaseTwice`).
- A session whose timer beats its Put is never reaped (`TimerTheorems.LatePutIsForgotten`), and one that is touched after
  its timer fired is removed all the same (`LateTouches.TouchedIsRemoved`). So is a new session that is put under an id
  while a DELETE of the old one is on its way (`LateTouches.SuccessorIsRemoved`); `LateTouches.RemovesInUseExactly` says
  exactly when.
- A vendor request without a service, "/session/<id>/aerokube", makes the Director panic (`Routing.BareVendorPanics`),
  and no other request that reaches it does (`Routing.PanicsOnPath`).
- The links advertised for a session whose id has one of '/', '?', '#' and '%', or is empty, "." or "..", do not lead back
  to it (`Links.LinkLeadsBack`).
- A file called like a placeholder gets the wrong upload key (`S3Key.ValueReplacedAgain`); `S3Key.StepsExactly` says exactly
  when a replacement goes wrong.

## Model

| member | source | states |
|---|---|---|
| AdmissionLaws.ProtectBalanced | protect/queue.go:24-72 | each channel operation of Protect moves as many tokens as the request's position changes, and never overfills limit |
| AdmissionLaws.CreateBalanced | protect/queue.go:89-98 | the same for the handler, its panics, Drop and Create, with the session map |
| AdmissionLaws.DeleteBalanced | protect/queue.go:100-104 | the same for DELETE and Release |
| AdmissionLaws.ConservedStep | protect/queue.go:24-104 | any step of any goroutine keeps the token account of every channel and of the session map |
| AdmissionLaws.ConservationLaw | protect/queue.go:24-104 | in every reachable state limit plus half-done Drops and Releases equals tokens not yet pending, pending, half-done Creates and used; limit never exceeds the size; queued plus pushers equals owed receives |
| AdmissionLaws.PendingNeverBlocks | protect/queue.go:90-98 | a Drop or Create at the receive from pending always finds a token |
| AdmissionLaws.QueuedIsSupplied | protect/queue.go:54-68 | a request at the receive from queued finds a token or a pusher that can send one |
| AdmissionDiscipline.ExactGaps | selenoid.go:382-383 | in any run, how far len(limit) and len(used) are from sessions.Len(), with overwriting Puts and empty Removes counted |
| AdmissionDiscipline.LenBound | selenoid.go:602-609 | without hypotheses the session map exceeds limit by at most the Removes that removed nothing, and exactly when these outnumber the overwritten sessions and the tokens without a session |
| AdmissionDiscipline.NamedRun | selenoid.go:582-608 | in every run whatever the map or a DELETE names as a session is one |
| AdmissionDiscipline.OverwrittenRun | session/session.go:129-134 | no live session was overwritten exactly if every Put was under a fresh id |
| AdmissionDiscipline.OwnedPut | selenoid.go:382 | a Put, under whatever id, keeps every session owned by one request |
| AdmissionDiscipline.OwnedGet | selenoid.go:582-585 | a DELETE that passes Get alone is the only one for its id and its session |
| AdmissionDiscipline.OwnedRemove | selenoid.go:602-607 | the Remove that follows finds its id in the map, and no other DELETE ever names its session |
| AdmissionDiscipline.OrderlyStep | selenoid.go:584-608 | a step without a racing DELETE keeps found and removed sessions owned one to one, with no empty Remove |
| AdmissionDiscipline.OrderlyRun | selenoid.go:584-608 | so does every run without racing DELETEs, though ids be reused |
| AdmissionTheorems.HoldersLaw | protect/queue.go:26-104 | in every run slot holders are the tokens in limit and one more for each DELETE that took a token for a session whose token was taken; so they stay within limit exactly if no two DELETEs took a token for one session |
| AdmissionTheorems.RunningLaw | selenoid.go:201-260 | in every run running services against limit, exactly, with the DELETEs of one session counted, and when they stay within it |
| AdmissionTheorems.SlotBound | protect/queue.go:26-104 | slot holders are exactly the tokens in limit, and sessions and running services are no more, in every state of every run without racing DELETEs |
| AdmissionTheorems.LimitReceiveExactly | protect/queue.go:90-104 | in any state a Drop or Release at the receive from limit finds a token exactly if the empty Removes are fewer than the sessions and the tokens without one |
| AdmissionTheorems.UsedExactly | protect/queue.go:95-104 | in any state used has a token, or a Create is about to send one, exactly if the empty Removes are fewer than the sessions and those being released |
| AdmissionTheorems.LimitNeverBlocks | protect/queue.go:90-104 | where every Remove removed something, a Drop or Release at the receive from limit finds a token |
| AdmissionTheorems.UsedIsSupplied | protect/queue.go:95-104 | then a Release at the receive from used finds a token or a Create one or two steps from sending it, also between Put and Create |
| AdmissionTheorems.NoReceiveIsStuck | protect/queue.go:54-104 | any thread at a receive can move after at most two steps of others |
| AdmissionTheorems.CancelLaw | selenoid.go:201-260 | in every run no service is cancelled while it counts as running, and each cancel runs at most once exactly if no two finished DELETEs were for one session |
| AdmissionTheorems.CancelledAtMostOnce | selenoid.go:201-260 | in particular at most once where DELETEs do not race |
| AdmissionTheorems.QuiescentAgreement | protect/queue.go:74-87 | with every goroutine of any run finished, sessions, used and limit agree and pending and queued are zero exactly if no handler panicked and as many sessions were overwritten as released in vain |
| AdmissionTheorems.FreshQuiescence | protect/queue.go:74-87 | with fresh ids and without racing DELETEs, exactly if no handler panicked |
| AdmissionTheorems.ReadyIsRight | selenoid.go:859-863 | the ready flag then tells whether a request is admitted at once, exactly unless lost slots fill the queue |
| AdmissionTheorems.NotReadyMeansFull | selenoid.go:859-863 | at any time a false ready flag means that limit is full, unless some Remove removed nothing; without racing DELETEs none does |
| AdmissionArrivals.ArrivalLaw | protect/queue.go:24-72 | in every run a request is turned away only if it found limit full and asked not to wait or the queue is disabled, waits or leaves only if it found limit full and neither is so, leaves only if its client did, and is let in otherwise; a DELETE finds nothing only if nothing was there |
| AdmissionArrivals.MovesExactly | protect/queue.go:27-69 | before its token a request moves at once, or waits and takes a token exactly if limit has room |
| AdmissionRace.RaceAdmitsTwo | selenoid.go:584-608 | two DELETEs that both passed Get make a queue of size one hold two slots |
| AdmissionRace.RaceStrandsRelease | protect/queue.go:101-104 | a racing DELETE may wait at the receive from limit for a token that no goroutine has |
| Hub.Drive | protect/queue.go:24-104 | the channel objects and the hub driven by any schedule reach the model's state, up to the first operation that would wait, and keep the conservation law and, without racing DELETEs, the bound |
| IdleTimers.CloseOnceKeeps | selenoid.go:597-601 | closing the session's channel, unless closed, leaves all of its timers closed and the invariant intact |
| IdleTimers.ArmKeeps | selenoid.go:904-914 | arming a timer for a session whose timers are all closed keeps the invariant |
| IdleTimers.EndKeeps | selenoid.go:595-608 | the locked part of a DELETE is always possible and keeps the invariant, whatever became of the map since Get |
| IdleTimers.InvStep | selenoid.go:584-614 | every event keeps the timer invariant |
| IdleTimers.OneArmedTimer | selenoid.go:655-679 | at any time a session has at most one armed timer, the one TimeoutCh refers to, and no channel is closed twice |
| TimerHistory.RunTells | selenoid.go:584-679 | the state after any run is what its events tell: who used which session when, who armed each timer and when, which use closed its channel first, what woke it, the map, the DELETEs on their way, and the counts |
| TimerHistory.PossibleExactly | selenoid.go:904-914 | after any run an event can come next exactly if the events so far allow it; a sleeping timer may fire exactly if it is due and its session was not used before that, and may leave exactly if it was used |
| TimerHistory.FiresOnlyIdle | selenoid.go:904-914 | a timer fires at its deadline or later, and no event of the run uses its session between its arming and its deadline |
| TimerHistory.TouchRearms | selenoid.go:597-611 | after a request for a session, or its creation, its current timer is one armed then, and the only one whose channel is open |
| TimerTheorems.ReleasesLaw | selenoid.go:584-608 | in every run releases plus sessions are the Puts, less the overwritten sessions, plus the DELETEs that found nothing under the lock; when that stays within the Puts, and that there are no such DELETEs exactly if each finds its session |
| TimerTheorems.TwoDeletesReleaseTwice | selenoid.go:584-608 | a run in which one session is released twice |
| TimerTheorems.IdleSessionIsReaped | selenoid.go:611-613 | for a watched session there is a run of time, its timer and a DELETE alone that removes it |
| TimerTheorems.SparedStep | selenoid.go:595-662 | no event but a request for the session gives a forgotten one a timer or a DELETE |
| TimerTheorems.ForgottenStays | selenoid.go:595-662 | a session for which nothing may come any more stays in the map through every run that does not ask for it |
| TimerTheorems.ReapableExactly | selenoid.go:904-914 | a session can be reaped by time, timers and their DELETEs alone exactly if a DELETE is on its way or a timer may still fire |
| TimerTheorems.WatchedStep | selenoid.go:597-613 | a session with an armed timer or a DELETE on its way keeps one while it is in the map |
| TimerTheorems.NothingLeftMeansGone | selenoid.go:597-613 | so it is sure to go: any run that ends with no armed timer and no DELETE for it has removed it on the way |
| TimerTheorems.NoSessionForgotten | selenoid.go:319-382 | a run never leaves a session in the map without an armed timer or a DELETE on its way, exactly if its Puts are in time |
| TimerTheorems.LatePutIsForgotten | selenoid.go:327-382 | a run in which the timer beats the Put, after which no run that spares the session removes it |
| LateTouches.RemovesInUseExactly | selenoid.go:584-613 | a DELETE past Get removes a session that is in use exactly if there is a session under its id by then and that one's current timer is not due; if a timer sent it, either the session was re-armed when that timer was due already, or it is another one put under the id |
| LateTouches.TouchedIsRemoved | selenoid.go:584-613 | a run in which a session is removed after being re-armed |
| LateTouches.SuccessorIsRemoved | selenoid.go:584-613 | a run in which another session under the id is removed |
| SessionTimers.Timers.CloseTimeoutCh | selenoid.go:597-601 | the channel that the session refers to is closed, unless it is: never twice |
| SessionTimers.Timers.OnTimeout | selenoid.go:904-914 | a new goroutine with a new channel, to which the session now refers |
| SessionTimers.Timers.Open | selenoid.go:319-330 | create arms the timer of an object that is not yet in the map |
| SessionTimers.Timers.Put | session/session.go:129-134 | the map refers to the object under its id |
| SessionTimers.Timers.Touch | selenoid.go:655-662 | closing and re-arming through the reference is the model's touch |
| SessionTimers.Timers.IsSessionAlive | selenoid.go:881-895 | alive exactly if the id still refers to the very session object; then re-arms it, else changes nothing |
| SessionTimers.Timers.End | selenoid.go:595-608 | closes the channel of the object it got, and removes whatever is under the id by then |
| SessionTimers.Timers.Fire | selenoid.go:907-909 | the goroutine names the id of its session |
| SessionTimers.Timers.OneOpenChannel | selenoid.go:655-679 | the channel of a waiting timer that is open is the one its session refers to |
| SessionTimers.Drive | selenoid.go:584-679 | every schedule of the model runs on the objects, without closing a channel twice |
| WsFrames.IndexByte | wsdriver/ws_req.go:123 | the first place of the byte, or -1 if there is none |
| WsFrames.ParseEncode | wsdriver/ws_req_test.go:10-24 | parsing the encoding of a valid request gives the request |
| WsFrames.EncodeParse | wsdriver/ws_req.go:89-137 | encoding what an accepted frame was parsed to gives the same bytes |
| WsFrames.FrameBijection | wsdriver/ws_req.go:89-137 | accepted exactly if some valid request encodes to the bytes, and only that request |
| WsFrames.BlamesFirst | wsdriver/ws_req.go:89-137 | a frame is rejected for the first rule that its bytes break, in the order length, version, type, compression, method, path |
| WsFrames.DecodeResponse | wsdriver/README.md:565-586 | a client's decoder recovers every field of a response frame |
| WsExchange.ResponseRoundTrip | wsdriver/ws_res.go:36-107 | id, status, JSON flag and exact body come back; compressed exactly above 1024 bytes with an advertised codec, zstd first |
| WsExchange.RequestGoesUpstream | wsdriver/http_req.go:34-81 | verb, path and inflated body of an encoded request reach the upstream |
| WsExchange.CallIsTransparent | wsdriver/wsdriver.go:80-136 | a call through a live connection is the call itself, end to end |
| WsExchange.ReplyLaw | wsdriver/wsdriver_errors.go:47-69 | every reply decodes to its request's id; the error bit is set exactly if no request could be inflated, built, sent and answered without an error, and then the status is 500; a dead session is 404 and asks nothing upstream |
| WsExchange.AsksExactly | wsdriver/http_req.go:34-81 | a request goes to the HTTP library exactly if it is the one the client meant, its body inflated by the named codec, and can be built |
| WsExchange.AskFailsExactly | wsdriver/http_req.go:34-81 | none goes, with this error, exactly if the body does not inflate or the request cannot be built |
| WsExchange.RespondsExactly | wsdriver/ws_res.go:36-107 | a good reply is made exactly of an answer that is read, closed and deflated without an error; else the error is the first of these |
| WsExchange.FailureReplies | wsdriver/wsdriver_errors.go:51-69 | the bytes of the reply to each failure, and whether the upstream was asked |
| WsExchange.DeadReplies | wsdriver/wsdriver_errors.go:47-49 | the bytes of the reply for a dead session |
| WsExchange.VerbNames | wsdriver/ws_req.go:50-67 | the nine methods by their codes |
| WsExchange.AdvertisedExactly | wsdriver/wsdriver.go:44-47 | a codec counts as supported exactly if its name occurs in the header |
| WsWire.FrameSays | wsdriver/ws_req.go:89-137 | the fields of an accepted frame are the bits and big-endian bytes of the document, with the path up to the first zero |
| WsWire.FrameAsks | wsdriver/http_req.go:34-81 | the upstream is asked for exactly what the bytes say: 0x04 in the header is gzip, 0x08 zstd, 0 neither |
| WsWire.ReplySays | wsdriver/ws_res.go:36-107 | the bytes of a good reply: header bits, id and status big-endian, 0x08 exactly above 1024 bytes with zstd advertised, 0x04 likewise for gzip alone, and the payload of that codec |
| WsWire.FrameAnswered | wsdriver/wsdriver.go:110-136 | those are the bytes sent for a frame whose request the upstream answered |
| WsExchange.TraceLaw | wsdriver/wsdriver.go:56-137 | for every message sequence: one frame per answered message, in order, then at most one close of the right code, and nothing after |
| WsExchange.CallLaw | wsdriver/wsdriver.go:56-137 | for every message sequence: the calls upstream are those of the exchanged messages, in order, at most one each |
| WsExchange.HandledCount | wsdriver/wsdriver.go:56-137 | exchanged messages are the answered ones and at most one more, whose answer could not be sent |
| WsDriver.ByteBuffer.Write | wsdriver/wsdriver.go:49-54 | appends in place exactly if there is room, touching nothing beyond, and else in a new array, leaving the old one as it was |
| WsDriver.ParseRequestV1 | wsdriver/ws_req.go:89-137 | fills the caller's struct exactly as the functional parser, with Buffer a view of the input |
| WsDriver.MakeRequest | wsdriver/http_req.go:34-81 | asks upstream what the functional form says, or fails with the error of inflating, building or sending it, and touches only httpBuffer |
| WsDriver.WriteResponse | wsdriver/ws_res.go:36-107 | leaves exactly the functional frame in wsBuffer, or reports the error after a partial write |
| WsDriver.ResponseHeader | wsdriver/ws_res.go:51-69 | the header bits set one by one are the packed header of the chosen codec |
| WsDriver.WriteErrorMessage | wsdriver/wsdriver_errors.go:11-45 | the buffer holds exactly the synthesized frame, whatever it held before |
| WsDriver.AnswerLive | wsdriver/wsdriver.go:110-136 | the reply built over the bytes that the request's view still shows is the one built from scratch |
| WsDriver.Reply | wsdriver/wsdriver.go:100-136 | the frame left in the buffer for an accepted request is the one of the functional exchange, dead sessions included |
| WsDriver.ServeMessage | wsdriver/wsdriver.go:56-137 | one iteration sends and asks what one functional turn does |
| WsDriver.HandleConnection | wsdriver/wsdriver.go:36-138 | the loop with its reused, aliased buffers does what the per-message function does with fresh ones |
| SessionAttempts.AttemptSession | selenoid.go:215-268 | the loop ends within max(retryCount, 1) + 1 attempts, or one less if the service has a path, whatever the upstream does |
| SessionAttempts.CourseOfAttempts | selenoid.go:215-268 | for any upstream and paths: what each attempt posts to, that another follows exactly after a timeout with retries left or the 404 of a service without a path, and what the last one's answer makes of the request |
| SessionAttempts.SuccessCarriesBase | selenoid.go:319-322 | on an answer the service's URL holds the base path that the answered attempt was posted under |
| SessionAttempts.BaseAccumulates | selenoid.go:218 | attempt k posts to the base path k + 1 times over |
| SessionAttempts.HubAccumulates | selenoid.go:215-264 | without a base path every attempt up to the 404 posts to the request's path, and from then on to /wd/hub once more each time |
| SessionAttempts.OneRetryJoinsOnce | selenoid.go:215-268 | with at most one retry every post goes to one base path joined once with the request's path |
| SessionCreation.Check | selenoid.go:159-181 | capabilities pass exactly if their timeout parses and their sizes are in the grammars |
| SessionCreation.FindStarter | selenoid.go:155-200 | the first entry that is null, unsound or available decides |
| SessionCreation.Launch | selenoid.go:117-268 | create up to the answer: when it gets there, and how its slot is settled when it does not |
| SessionCreation.Conclude | selenoid.go:269-383 | create from the answer on: served exactly if the answer names a session, after the last slash of its redirect or in its body, by that id |
| SessionCreation.LastFragment | selenoid.go:279-281 | the last fragment is what follows the last slash, or the whole path |
| SessionCreation.AbsentFirstMatch | selenoid.go:146-149 | without a firstMatch the capabilities alone decide |
| SessionCreation.GivenFirstMatch | selenoid.go:155-200 | with one its first null, unsound or available entry does |
| SessionCreation.NoneAvailable | selenoid.go:195-200 | and if there is none, no service is started |
| SessionCreation.CreateSession | selenoid.go:117-385 | every path settles the slot once, by Drop with one cancel if a service was started, or by Put then Create; served exactly when, and panicked exactly if the entry that decides is null or the answer panics |
| SessionCreation.NullEntryPanics | selenoid.go:155-157 | a firstMatch of one null entry panics before a service starts |
| SessionCreation.ReplayDrop | protect/queue.go:89-93 | the dropping path, step by step in the admission model, gives both tokens back and nothing else |
| SessionCreation.ReplayServe | protect/queue.go:95-98 | the serving path moves pending to used and puts the session |
| SessionCreation.CreateInModel | selenoid.go:117-385 | every path of create is a run of its thread in the admission model |
| ResponseBody.ProcessBody | selenoid.go:438-484 | the id a driver's answer names, the errors and panics, and the capabilities after the in-place additions, nothing else changed |
| ResponseBody.PanicsExactly | selenoid.go:446-475 | which answers make the handler panic |
| ResponseBody.OlderAnswer | selenoid.go:446-449 | an older answer names the session at its top, by a string or not at all |
| ResponseBody.W3cAnswer | selenoid.go:451-475 | a W3C answer names it beside its capabilities, and is refused exactly if its WebSocket URL does not parse |
| ResponseBody.OtherAnswer | selenoid.go:451-455 | any other answer names none |
| ResponseBody.LinkedLaw | selenoid.go:456-463 | which URL and version stand under which key; all other keys stay |
| ResponseBody.ClientViewLaw | selenoid.go:465-473 | a WebSocket URL that parses gets the hub's host, and nothing else changes |
| ResponseBody.CreateFromBody | selenoid.go:269-383 | the slot of a request whose answer is JSON is settled by what the body says, with the capabilities changed for the client exactly as named |
| Links.LinkLeadsBack | selenoid.go:456-457 | the advertised link, read as a URL and routed by the hub, leads back to the session exactly if its id has none of '/', '?', '#' and '%' and is not empty, "." or ".." |
| JsonRewrite.StripLaw | selenoid.go:420-436 | the options key goes, browserName goes exactly for safari with an app or bundle id, all else stays, and twice is once |
| JsonRewrite.Node.RemoveSafariBrowserName | selenoid.go:420-436 | removes browserName exactly from a native iOS application |
| JsonRewrite.RewriteFirstMatch | selenoid.go:407-414 | every object entry is rewritten, also one that occurs twice |
| JsonRewrite.RemoveSelenoidOptions | selenoid.go:387-418 | exactly the capabilities objects are rewritten, wherever they are shared; none is left to rewrite, and a clean body is unchanged |
| JsonRewrite.TargetsExactly | selenoid.go:391-416 | these are desiredCapabilities, alwaysMatch and every object entry of firstMatch |
| Resolution.MatchesShort | selenoid.go:499-500 | the matcher accepts exactly the WxH grammar |
| Resolution.MatchesFull | selenoid.go:499-500 | the matcher accepts exactly the WxHxD grammar, and its group is the only size there is |
| Resolution.ResolutionLaw | selenoid.go:503-521 | for every input: errors exactly outside both grammars, results full and fixed points, shortening undoes extending |
| Resolution.ResolutionValues | selenoid.go:503-517 | a full resolution stays, a short one gets depth 24, none means 1920x1080x24, all else is an error |
| Resolution.VideoSizeValues | selenoid.go:523-534 | a given video size stays, and none means the size of the screen |
| Resolution.VideoSizeIsShort | selenoid.go:523-534 | create never indexes a missing match, and the video size is in the WxH grammar |
| Fragments.JoinSplit | selenoid.go:582 | joining undoes splitting |
| Fragments.SplitJoin | selenoid.go:592 | splitting undoes joining when no part has a slash |
| Fragments.RootedAppend | selenoid.go:624 | absolute paths written one after the other are the path of all their segments |
| Fragments.CleanRooted | selenoid.go:592 | a clean absolute path is a fixed point of path.Clean |
| Fragments.CleanSkips | selenoid.go:624 | path.Clean of an absolute path drops empty segments and single dots |
| Fragments.CleanGoesBack | selenoid.go:624 | two dots take the segment before with them |
| Fragments.CleanStaysAtRoot | selenoid.go:624 | at the root they are dropped |
| Fragments.PathJoinRooted | selenoid.go:218 | joining clean absolute paths appends their segments |
| Routing.RouteEquivalence | selenoid.go:582-593 | a vendor request and the service's own route give the same id and remaining path |
| Routing.DriverGetsPath | selenoid.go:602-624 | any other request reaches the driver at its own path under the base path, and only a DELETE of the session's own path ends it |
| Routing.SeFileRenamed | selenoid.go:620-624 | an upload under /se/file reaches the driver under /file |
| Routing.DirectExactly | selenoid.go:582-627 | under /session/: an error exactly for an unknown id, the hub's own upload exactly for a known id followed by /file, the end of the session exactly for the DELETE of a known plain id |
| Routing.PanicsOnPath | selenoid.go:582-590 | on the paths under /session/, for which alone proxy is registered (main.go:292-302), the Director panics exactly if the session is known and the path is /session/, an id and /aerokube |
| Routing.BareVendorPanics | selenoid.go:582-590 | that request, for any id |
| Routing.SplitThenRejoin | selenoid.go:704-707 | rejoining the split path rebuilds it exactly if there are at least four fragments |
| UsageState.Usage.Add | config/config.go:156-191 | the callback adds one session to its own cell and keeps the report right |
| UsageState.State | config/config.go:145-193 | for every order: used is the number of sessions and the sum of counts, each count is its list's length, each list its cell's sessions, and every configured browser and version is there |
| UsageState.PutCount | config/config.go:159-172 | setting a cell changes the sum of all counts by the change of that cell |
| UsageState.ListedOnce | session/session.go:60-69 | a session is listed in exactly the cell of its browser name, version and quota, with its container, screen and whether it has a VNC address |
| UsageState.BrowserNameLaw | session/session.go:60-69 | the browser's name is the first that is given of browserName, deviceName and appium:deviceName |
| S3Key.PlaceholdersDistinct | upload/s3.go:198-206 | no placeholder is a prefix of another |
| S3Key.ReplacePiecesExactly | upload/s3.go:198 | one replacement fills its placeholder's holes and changes nothing else, exactly if the text around them does not spell the placeholder or it stands for itself |
| S3Key.StepsExactly | upload/s3.go:198-206 | for every pattern, all values and any order, the hub's own included: after each replacement exactly the placeholders replaced so far have become their values, if and only if none is spelt by the text when its turn comes |
| S3Key.EveryOrderExactly | upload/s3.go:198-206 | this holds for every order that names each placeholder once, exactly if no placeholder is spelt when all others are filled |
| S3Key.HarmlessIsSimultaneous | upload/s3.go:198-206 | then the replacements come to one simultaneous substitution |
| S3Key.InertIsHarmless | upload/s3.go:198-206 | no order spells a placeholder if the simultaneous substitution has none but those that stand for themselves |
| S3Key.AnyOrderIsSimultaneous | upload/s3.go:198-206 | then any order comes to that substitution |
| S3Key.DollarFreeIsInert | upload/s3.go:191-209 | that is so if every '$' of the pattern starts a placeholder and no value that it inserts has one |
| S3Key.KeyIsSimultaneous | upload/s3.go:191-209 | if no placeholder is spelt when its turn comes, the key is the simultaneous substitution with dashes for spaces |
| S3Key.KeyHasNoSpace | upload/s3.go:207 | the key has no space, whatever the pattern and the values |
| S3Key.ValueReplacedAgain | upload/s3.go:198-206 | a value that is itself a later placeholder is replaced again |
| S3Key.EarlierStays | upload/s3.go:198-206 | one that is an earlier placeholder stays |
| S3Key.NamesStandFor | upload/s3.go:198-206 | which value each of the nine placeholders stands for |
| S3Key.OwnPattern | upload/s3.go:193-196 | a session's own pattern counts instead of the hub's |
| S3Key.WrongAndBack | upload/s3.go:198-206 | values for which the steps go wrong and the result comes out right, so that exactness is a matter of the steps |

## Left out

- AdmissionTheorems.NoReceiveIsStuck: assumes fewer than MaxInt32 requests in flight, which is where the large channels would block.
- AdmissionTheorems.SlotBound: needs `OneDelete`; without it `HoldersLaw`, `RunningLaw` and `LenBound` say exactly by how much the bound fails, and when.
- S3Key.KeyIsSimultaneous: one way; the steps are exact (`StepsExactly`), but a key may come out right by coincidence though they are not (`WrongAndBack`).
- UsageState.State: the nested maps and cells are values that are put back, not shared pointers; the session's container, capabilities and start time are opaque.
- TimerTheorems.IdleSessionIsReaped: the timer's DELETE request is taken to reach the hub; the failures that the hub only logs (selenoid.go:93-100) are not modelled.
- TimerHistory.FiresOnlyIdle: a timeout is a natural number; the ticker of `reverseProxy` is any sequence of touches, and its panic on a timeout below two nanoseconds is not modelled.
- WsDriver.MakeRequest: the bytes go upstream at once rather than through a reader.
- WsDriver.HandleConnection: a connection ends with its list of messages; the outcome of writing a close message is ignored, as the code does, and the upgrade itself is a library's.
- WsFrames.ParseEncode: the encoder is the client's, which is not part of this repository; the test's encoder is its form.
- S3Key.UploadKey: the base name, extension, date and lower-casing are given values.
- Resolution.MatchFull: the regular expressions are modelled by the grammar they denote, not by a matching engine.
- SessionCreation.CreateSession: reading the request, decoding JSON, merging capabilities, finding and starting a service, temporary file names and the client's view of the answer are inputs or left out; a request built from the service's URL is taken to be well-formed.
- JsonRewrite.RemoveSelenoidOptions: a body that is not a JSON object decodes to an empty one; decoding and encoding are not modelled.
- Fairness and real time: any thread may move next, and no schedule is excluded.
- Docker, drivers, containers, video, logs, file upload and download, VNC, events, metadata and the S3 calls: foreign calls.
- Configuration, flags, signals, shutdown and logging: simple or pure input and output.
