# Verified models of the HTTP service's core

This project models the parts of the service whose correctness depends on
interleavings, on arithmetic or on parsing, and proves what the service promises
about them for every run, every schedule and every input.

Run `dafny verify dfyconfig.toml` (Dafny 4.11).

## What is modelled

- **Graceful shutdown** (`Shutdown`, `ShutdownSafety`, `ShutdownLiveness`,
  `Supervisor`, with `Fairness`). RunAll's caller, the drain sequencer, N servers and the accept
  goroutine beneath each are a transition system in which every choice (which ready
  case a `select` takes, how a bind, an accept loop or a Shutdown call ends, when
  time passes) is an event, so a run is a sequence of events and every theorem
  quantifies over all of them. `Supervisor` is the same protocol as code over
  shared mutable fields under an arbitrary scheduler.
  Library contracts assumed: `http.Server.Serve` returns cleanly only after
  `Shutdown` was called, also when it had not started yet, and may fail at any
  time; `Shutdown` ends by success or failure; `errgroup` keeps the first non-nil
  return and cancels its context on it.
- **Request chain** (`Response`, `RequestChain`, `InFlight`, `Concurrent`). A handler is any
  finite list of `WriteHeader` and `Write` operations that ends by returning,
  panicking or aborting. The wire follows net/http in these points: the first
  final status commits, a duplicate is dropped with a warning, informational
  statuses (section 15.2 of RFC 9110) do not commit, a first status that is not a
  three-digit number panics, and body bytes are refused when the status has no
  body (1xx, 204, 304) or when they exceed what is left of a declared
  Content-Length. What a client sees is the status, the informational statuses and
  the body, which a HEAD response does not carry. The limiter is a channel of slots under any interleaving of any
  number of requests; `Concurrent` runs whole requests through the chain one small
  step at a time over that channel. The administrative listener's chain, which has no recorder,
  is compared with the application's.
- **Readiness** (`Names`, `Registry`, `Failures`, `Probing`, `Readiness`, `DrainHold`).
  The registry, and one probe as a transition system: a goroutine and a result slot
  for each check, their shared context with its timeout, `wg.Wait`, and whatever
  others register or set meanwhile. How a check ends is an event, so it may depend on
  the interleaving; what a check does with its context (return by itself, return once
  the context is done, or ignore it and never return) belongs to the check.
  `Readiness` is the same as code under an arbitrary schedule, and `DrainHold` joins
  the probe to the shutdown protocol.
- **Trusted proxies** (`Text`, `Addresses`, `Proxy`). The CIDR list, the header
  splitting and the right-to-left walk. Parsing one address, prefix or host:port
  pair is an arbitrary total function; prefix arithmetic is spelled out on 32 and
  128 bits.
- **Values and errors** (`Int64`, `Decimal`, `ByteSize`, `ClientErrors`). ByteSize
  over int64 with wrapping multiplication and truncating division, and the error
  tree, its document and that document's status. `ErrorDelivery` follows the document
  through the chain to the client.

## Where the code falls short of a simple reading

- The recorder and the wire agree exactly when a handler's first operation commits
  the response (`Response.RecorderAgreesExactlyWhen`). When it is an informational
  status, the request entry reports that status instead of the final one; when it
  is a number net/http refuses, the panic is taken for one after the response had
  begun, so the client receives an implied 200 and not the 500 that recovery is
  there to write (`RequestChain.UncommittedPanicIs500ExactlyWhen`, and
  `RequestChain.RecorderCanDisagree` with concrete handlers).
- A handler that declares a Content-Length shorter than the error document and then
  panics before writing gets its 500 without the document
  (`RequestChain.PanicBeforeWriting`, and `RequestChain.ShortLengthDropsDocument` with
  a concrete handler).
- `ClientError.Status` may be any number. The error document reaches the client under
  its own status exactly when the errors do not all share a status that is
  informational, has no body, or is no three-digit number
  (`ErrorDelivery.DocumentArrivesExactlyWhen`).
- Several header lines read as their joined line exactly when there is a line:
  joining none gives an empty line, which is one unreadable hop
  (`Proxy.LinesJoin`). The attribution is the same all the same
  (`Proxy.LinesDoNotMatter`).
- specs/002-server-hardening/design.md:67-75 describes a deferred request log. The
  code logs only after the inner handler returns, so an aborted request leaves no
  entry; the model follows the code.
- specs/005-service-scaffolding/design.md:150 says a probe answers although a check
  ignores its context. The code waits for every check, so it answers exactly when
  draining was set or none of the registered checks ignores its context and hangs
  (`Probing.AnswersExactlyWhen`, and `Probing.HungCheckBlocks` with one such check).

## Model

| member | source | states |
|---|---|---|
| ShutdownSafety.RunKeepsInv | internal/server/server.go:181-319 | the protocol's invariant holds after every run: each return is explained by what happened to that server, and the slot mirrors its accept goroutine |
| ShutdownSafety.StopsOnlyWhenEarned | internal/server/server.go:184-209 | a server takes the shutdown branch only after some server handed over an error, or once readiness has been failing for the whole pre-drain delay after a cancellation |
| ShutdownSafety.ListenersHeldOpen | internal/server/server.go:234-257 | with no failure and the hold not over, Shutdown has been called on no listener, and every started server is serving unless its own listen or accept call has just failed |
| ShutdownSafety.DrainingIsRecorded | internal/server/server.go:242-257 | the time readiness began failing is the time of the run's SetDraining step, which followed the cancellation |
| ShutdownSafety.DrainingNeverClears | internal/server/readiness.go:89-99 | once readiness has begun to fail it fails for the rest of the run |
| ShutdownSafety.ReturnsAfterEveryone | internal/server/server.go:200-214 | done is closed only after the last server was joined; RunAll returns only after that and after the sequencer |
| ShutdownSafety.NoDrainStepAfterReturn | internal/server/server.go:200-214 | in no run does the sequencer, and so stopServing, take a step after RunAll returned |
| ShutdownSafety.AcceptNeverBlocks | internal/server/server.go:276-286 | whenever an accept goroutine has a result to send its one-slot channel is free, also when nobody will receive |
| ShutdownSafety.ErrIsFirstError | internal/server/server.go:192-211 | the group's error after any run is the first error handed over in it |
| ShutdownSafety.ResultIsFirstError | internal/server/server.go:211-222 | RunAll's result is the first error handed over, and nil exactly when every accept loop ended cleanly and every Shutdown succeeded |
| ShutdownSafety.CarriedErrorHappened | internal/server/server.go:261-319 | an error a server carries was produced by that server's own failing call of that kind |
| ShutdownSafety.ReturnedErrorHappened | internal/server/server.go:171-222 | an error RunAll returns was really produced by some server's listen, accept or Shutdown call |
| ShutdownSafety.NilExactlyWhenNothingFailed | internal/server/server.go:211-222 | RunAll returns nil exactly when no listen, accept or Shutdown call failed anywhere in the run, however late |
| ShutdownSafety.SelectsTakeAnyReadyCase | internal/server/server.go:234-256 | in every reachable state each select can take exactly its ready cases, told by what happened in the run: the hold ends with its timer or at once when all servers have ended, and a server stops for stopServing or the first failure |
| ShutdownSafety.AcceptEndsAfterShutdown | internal/server/server.go:276-286 | an accept call ends cleanly exactly once Shutdown was called on its server, and may fail until it has ended |
| ShutdownSafety.HoldIsTimed | internal/server/server.go:248-253 | the hold is measured from the step that armed its timer |
| ShutdownSafety.TheWorldIsFree | internal/server/server.go:261-318 | time, the operator and every library call may go either way in every reachable state |
| ShutdownSafety.ServersWaitForSenders | internal/server/server.go:295-316 | after Shutdown a server waits exactly for its accept goroutine's result, and a returned one for nothing |
| ShutdownSafety.NobodyWaitsOtherwise | internal/server/server.go:194-214 | the caller waits exactly for all servers and then for the sequencer, and the sequencer, outside its selects, for nothing |
| ShutdownLiveness.MeasureFalls | internal/server/server.go:181-319 | every step but idle time lowers one measure over phases and remaining hold |
| ShutdownLiveness.StuckOnlyWhileServing | internal/server/server.go:181-319 | no deadlock: an unfinished state has no step owed exactly when it is steadily serving, uncancelled and without error |
| ShutdownLiveness.TimeIsNeededOnlyForDelay | internal/server/server.go:234-257 | nothing but time is owed exactly while steadily serving or serving out the delay; once a server has failed or all have ended, RunAll returns without waiting |
| ShutdownLiveness.RunAllAlwaysReturns | internal/server/server.go:181-257 | for n servers and any delay a run has at most 11n + max(delay, 0) + 11 steps that are not idle time, and a stopped run that cannot continue has returned |
| ShutdownLiveness.FairRunsReturn | internal/server/server.go:181-257 | in every infinite run in which a step due for ever is taken, RunAll returns after the caller's context is cancelled or a server has failed |
| ShutdownLiveness.ReturnsExactlyWhenAsked | internal/server/server.go:181-257 | in such a run RunAll returns exactly when there is no server to run, the context is cancelled or a server has failed |
| Fairness.FairRunsArrive | internal/server/server.go:181-257 | the rule both termination theorems use: a fair run whose rank never rises, in which some step that lowers it is due until the goal, reaches the goal |
| Supervisor.ScheduleExists | internal/server/server.go:181-257 | the scheduler that the RunAll method asks for exists |
| Supervisor.Supervisor.constructor | internal/server/server.go:181-207 | the state at RunAll's first instruction |
| Supervisor.Supervisor.AdvanceCaller | internal/server/server.go:181-223 | the caller's assignments are its steps in the transition system |
| Supervisor.Supervisor.AdvanceSequencer | internal/server/server.go:234-257 | drain's assignments are its steps in the transition system |
| Supervisor.Supervisor.AdvanceServer | internal/server/server.go:261-319 | Run, Serve, the accept goroutine and the group's bookkeeping are the server steps |
| Supervisor.Supervisor.RunAll | internal/server/server.go:181-223 | under every scheduler that does not let time pass idly for ever it terminates with all goroutines joined, returns the first error, and returns nil exactly when every server ended cleanly |
| Response.RecorderAgreesExactlyWhen | internal/server/responsewriter.go:25-51 | written and status equal the wire's exactly when there was no operation or the first one commits the response |
| Response.CommittedStaysInStep | internal/server/responsewriter.go:25-56 | once committed, recorder and wire agree for ever and no operation panics |
| Response.MisrecordedStaysWrong | internal/server/responsewriter.go:25-32 | a recorded status the wire cannot commit is never corrected |
| Response.RecorderIsTransparent | internal/server/responsewriter.go:25-51 | the recorder changes neither what reaches the wire nor whether an operation panics |
| Response.FirstOperationIsRecorded | internal/server/responsewriter.go:25-51 | the recorder reports the first operation's status whatever follows |
| Response.StatusRecorder.WriteHeader | internal/server/responsewriter.go:22-32 | records the first status and delegates to the wire |
| Response.StatusRecorder.Write | internal/server/responsewriter.go:42-51 | marks the response begun and delegates to the wire |
| Response.FirstFinalDecides | internal/server/responsewriter.go:25-32 | for any list of operations the first that is no informational status decides status and panic, and the informational ones before it are sent in order |
| Response.BodyIsWhatFits | internal/server/responsewriter.go:42-51 | the body is what was written, in order, as far as a declared length has room, and nothing for a status without a body |
| RequestChain.OneEntryPerRequest | internal/server/handler.go:130-169 | exactly one request entry, last, after a panic entry if there was a panic; none at all for an abort, whose response is left as it was |
| RequestChain.EntryTellsTheWire | internal/server/handler.go:130-185 | the request entry carries the client's status at its level exactly when the first operation commits or there was none |
| RequestChain.PanicBeforeWriting | internal/server/recovery.go:22-65 | a panic before any operation gives wire 500, with the error document unless a shorter length was declared, and an entry of 500 at error level |
| RequestChain.PanicAfterWriting | internal/server/recovery.go:52-58 | a panic after an operation appends nothing and logs the committed status |
| RequestChain.UncommittedPanicIs500ExactlyWhen | internal/server/recovery.go:52-60 | a panic with nothing on the wire reaches the client as 500 exactly when the handler had performed no operation |
| RequestChain.RecorderCanDisagree | internal/server/responsewriter.go:25-32 | concrete handlers whose entry and wire differ |
| RequestChain.RefusalsTell | internal/server/limits.go:22-87 | a shed request reaches the client as 503 and one declared above a positive limit as 413, with their documents and log entries; every other request is the handler's |
| RequestChain.ErrorTextSays | internal/server/errors.go:85-122 | the chain's own error document says its status, its code and the code's title |
| RequestChain.CommittedStatusIsLogged | internal/server/handler.go:171-185 | a response that begins with its final status is logged with it, at error level from 500, warn from 400, info below |
| RequestChain.AdminShedsNothing | internal/server/admin.go:96-101 | the administrative chain has no limiter |
| RequestChain.ShortLengthDropsDocument | internal/server/recovery.go:52-60 | a concrete handler whose 500 has no body |
| RequestChain.ListenersDifferExactlyWhen | internal/server/recovery.go:52-60 | with and without a recorder the client of a panicking handler sees different answers exactly when the handler had performed an operation and either nothing was committed yet or the error document is still taken and the request is no HEAD |
| RequestChain.ListenersAgreeWithoutRoom | internal/server/recovery.go:52-60 | after 204, after 304 and after a used-up length both answers are the same although the handler had written; after an open 200 they differ |
| RequestChain.ListenersAgreeOtherwise | internal/server/recovery.go:22-38 | without a panic both chains deliver the same response and propagate the same aborts, and the administrative one logs nothing |
| RequestChain.Chain.ServeAdminHTTP | internal/server/admin.go:95-100 | recovery over a bare writer: the panic entry is logged, the error document always written, an abort propagated |
| RequestChain.Chain.ServeInner | internal/server/limits.go:22-87 | limiter refusal, body-limit refusal or handler, as the chain nests them |
| RequestChain.Chain.ServeRecovered | internal/server/recovery.go:22-65 | return, abort and panic cases in order, over the recorder it is given |
| RequestChain.Chain.ServeHTTP | internal/server/handler.go:68-74 | the composed chain yields the wire, the log and the propagation the lemmas speak about |
| InFlight.RunKeepsInv | internal/server/limits.go:72-87 | over every interleaving the channel length is the number of requests holding a slot and within the limit |
| InFlight.SlotsCountHolders | internal/server/limits.go:72-87 | slots in use equal the requests inside, never exceed the limit, and are zero exactly when none is inside |
| InFlight.ReleaseNeverBlocks | internal/server/limits.go:76-77 | the deferred receive is always possible |
| InFlight.ShedExactlyWhenFull | internal/server/limits.go:67-87 | a request is shed exactly when the limit is positive and that many requests are inside |
| InFlight.SlotFreeBeforeRecovery | internal/server/handler.go:70-71 | when recovery starts writing, the panicked request's slot is already free |
| InFlight.CapacityIsConserved | internal/server/limits.go:72-87 | after any run exactly the remaining capacity of fresh arrivals is admitted, and then arrivals are shed |
| Concurrent.RefinesLimiter | internal/server/handler.go:68-74 | every small step of interleaved requests is one step of the limiter protocol or invisible to it |
| Concurrent.RunRefinesLimiter | internal/server/handler.go:68-74 | every run of interleaved requests is a run of the limiter protocol, so what holds of that protocol holds of the chain |
| Concurrent.RunKeepsInv | internal/server/handler.go:68-74 | over every interleaving each request stays on course for the chain's sequential answer |
| Concurrent.FinishesAsIfAlone | internal/server/handler.go:68-74 | the request that arrived, once finished, has the wire, log entries and propagated abort the chain gives it alone, whatever the others did |
| Concurrent.AdmittedAtItsTurn | internal/server/limits.go:74-83 | the limiter answers a request once, at its first step, by how many are inside at that moment |
| Concurrent.NobodyWaits | internal/server/limits.go:61-87 | every unfinished request can take a step: requests are shed, never queued, and the release never blocks |
| Concurrent.LetInExactlyWhen | internal/server/limits.go:67-87 | a request is let in exactly when the limit is off or fewer than limit are inside |
| Concurrent.SlotFreeWhileRecovering | internal/server/handler.go:70-71 | while recovery handles a panicked request the channel counts other requests only, and it is empty when none is inside |
| InFlight.Limiter.Enter | internal/server/limits.go:75-83 | the non-blocking send admits exactly below the limit |
| InFlight.Limiter.Release | internal/server/limits.go:77 | the deferred receive is possible and frees this request's slot only |
| Names.BeforeIsDictionaryOrder | internal/server/readiness.go:151 | the order names are sorted in is that of the first differing character, a beginning coming first |
| Names.SortOrders | internal/server/readiness.go:151 | sorting distinct names gives a strictly sorted listing of the same names |
| Names.SortedListingIsUnique | internal/server/readiness.go:151 | a set of names has one strictly sorted listing |
| Registry.RegistrationsStayDistinct | internal/server/readiness.go:78-87 | after any run of registrations names are distinct, earlier checks are unmoved and every name asked for is present |
| Registry.RegisterOne | internal/server/readiness.go:78-87 | a fresh name is registered last with its check, a taken one changes nothing |
| Failures.WarningOfOne | internal/server/readiness.go:141-176 | a failed check is logged with its error, a panicked one with its panic value, one that passes not at all |
| Failures.WarningsOfConcat | internal/server/readiness.go:141-149 | the warnings are in the order of the checks |
| Failures.WarnedAreListed | internal/server/readiness.go:146-148 | the names listed are those warned about |
| Failures.FailedAreFailing | internal/server/readiness.go:139-149 | the collected names are those of the checks that did not pass |
| Failures.ListingNamesFailures | internal/server/readiness.go:139-153 | a listing is strictly sorted and names exactly the failing checks |
| Failures.ListingDependsOnFailuresOnly | internal/server/readiness.go:101-154 | probes in which the same names failed have the same listing, whatever else ran |
| Failures.RegistrationOrderIsIrrelevant | internal/server/readiness.go:78-154 | checks that end the same way have the same listing in whatever order they were registered |
| Probing.RunKeepsInv | internal/server/readiness.go:107-154 | over every interleaving the snapshot is unmoved, a hung check's slot stays empty, and an answer was given either at once for draining or over full slots |
| Probing.SlotTells | internal/server/readiness.go:127-137 | slot i holds what goroutine i returned in this run, and nothing else |
| Probing.ChecksRunOnce | internal/server/readiness.go:131-135 | no check ends twice in one probe |
| Probing.AnswerTells | internal/server/readiness.go:107-206 | a draining probe answers so, with 503 and no check run; any other answers only after every check registered at its start has ended, 200 and ready exactly when none failed, and otherwise 503 with exactly the names of those whose run here failed or panicked, sorted |
| Probing.OthersGoOn | internal/server/readiness.go:78-99 | a probe holds up no registration and no SetDraining, and they take effect in order |
| Probing.ReturnsAreDueExactlyWhen | internal/server/readiness.go:25-31 | a check that honours its context owes its return exactly once the timeout has passed or the client has left |
| Probing.StuckOnlyOnHungChecks | internal/server/readiness.go:124-137 | an unanswered probe has no step due exactly when the timeout has passed and every check still out ignores its context |
| Probing.AnswersExactlyWhen | internal/server/readiness.go:107-137 | in every infinite, weakly fair run the probe answers exactly when draining was set at its start or no check then registered ignores its context and hangs |
| Probing.HungCheckBlocks | internal/server/readiness.go:28-30 | with one hung check no run answers, and a fair one exists |
| Readiness.Readiness.AddCheck | internal/server/readiness.go:78-87 | panics exactly on a duplicate name, leaving the registry alone, and appends otherwise |
| Readiness.Readiness.RunChecks | internal/server/readiness.go:127-137 | whatever the schedule, the slots hold the errors of the checks that have returned and the wait group counts the others |
| Readiness.Readiness.Collect | internal/server/readiness.go:139-153 | the sorted names of the checks that failed, and one warning each in registration order |
| Readiness.Readiness.Failing | internal/server/readiness.go:107-154 | under every schedule it still waits exactly while some snapshot check has not returned, and otherwise gives the listing and the warnings of this run |
| Readiness.Readiness.Probe | internal/server/readiness.go:190-206 | under every schedule it has answered exactly when draining was set or all checks have ended, with 200 if draining was unset and none failed in this run and 503 otherwise |
| DrainHold.HoldIsVisible | internal/server/server.go:234-257 | from SetDraining on every probe is answered as draining, even with hung checks, and while the hold lasts in a run without failures every listener is open |
| Text.SplitInverts | internal/server/proxy.go:168 | one part more than there are commas, none containing one, and joining gives the text back |
| Text.SpacesAreWhiteSpace | internal/server/proxy.go:65 | space is what Unicode calls White_Space, code point by code point |
| Text.TrimSpaceSplits | internal/server/proxy.go:65 | trimming removes only surrounding space and all of it |
| Addresses.ContainsIsPrefixMatch | internal/server/proxy.go:132-140 | a network contains an address exactly when family and leading bits agree and there is no zone |
| Addresses.MaskingIsIrrelevant | internal/server/proxy.go:75 | clearing host bits never changes what a network contains |
| Addresses.AddressSpaces | internal/server/proxy.go:70 | there are 2^32 and 2^128 addresses |
| Addresses.UnmapUndoesMapping | internal/server/proxy.go:156 | an IPv4-mapped address, zone or not, becomes its IPv4 address, and every other stays |
| Proxy.NewTrustedProxies | internal/server/proxy.go:61-79 | succeeds exactly when every non-blank entry parses, and otherwise names the first that does not |
| Addresses.MaskedHasNoHostBits | internal/server/proxy.go:75 | a masked network is its leading bits alone |
| Proxy.NetworksAreMasked | internal/server/proxy.go:61-79 | each network kept is an entry's own with its host bits cleared |
| Proxy.TrustedMeansNamed | internal/server/proxy.go:61-79 | an address is trusted exactly when some non-blank entry, as written, contains it |
| Proxy.OnlyEntriesMatter | internal/server/proxy.go:61-79 | blank entries, order, repetition and surrounding space never change acceptance or trust |
| Proxy.Trusts | internal/server/proxy.go:132-140 | true exactly when some network contains the address |
| Proxy.ForwardedFor | internal/server/proxy.go:163-181 | the hops of all entries of all lines in order, unreadable ones kept |
| Proxy.OneHopPerEntry | internal/server/proxy.go:159-181 | exactly one hop per comma-separated entry |
| Proxy.LinesJoin | internal/server/proxy.go:163-181 | several lines read as the single line joining them with commas exactly when there is a line |
| Proxy.AttributionTells | internal/server/proxy.go:93-157 | over parsing alone: the peer is the remote address without its port, or all of it where there is none; an unparseable peer gives nothing, an untrusted one itself, and a trusted one the header entry that is an untrusted address with only trusted ones right of it, or itself |
| Proxy.ClientIP | internal/server/proxy.go:102-129 | returns the address the request comes from in that sense |
| Proxy.WalkFindsChosen | internal/server/proxy.go:114-128 | the walk returns the rightmost parseable untrusted hop with only parseable trusted hops right of it, else the peer; never another trusted address |
| Proxy.LeftIsIrrelevantExactlyWhen | internal/server/proxy.go:114-128 | what lies left of a tail never matters exactly when the tail holds an unparseable or untrusted hop |
| Proxy.ClientTextIsIgnored | internal/server/proxy.go:93-129 | lines a client sends before the tail, and text it writes before a comma on the tail's first line, never change the attribution once the tail stops the walk or the peer is untrusted |
| Proxy.ClientLinesAreIgnoredExactlyWhen | internal/server/proxy.go:93-129 | from a trusted peer no lines sent first can change the attribution exactly when the tail stops the walk or no text reads as an untrusted address |
| Proxy.MoreTrustMovesLeft | internal/server/proxy.go:102-140 | a hop chosen under more trusted networks lies at or left of the one chosen under fewer, which then exists |
| Proxy.LinesDoNotMatter | internal/server/proxy.go:102-129 | attribution is the same for several lines, their joined line, and an empty or absent header |
| Int64.DivideBackIsExact | internal/configtype/bytesize.go:102-105 | dividing the wrapped product by the unit gives the count back exactly when the true product fits int64 |
| Decimal.FormatIntIsNumeral | internal/configtype/bytesize.go:53-57 | what is formatted is a numeral for the number |
| Decimal.FormatIntIsPlain | internal/configtype/bytesize.go:53-57 | without plus or leading zeros, and with a minus exactly for a negative number |
| Decimal.ParseIntOfFormatInt | internal/configtype/bytesize.go:79 | parsing inverts formatting on every int64 |
| ByteSize.ScaleIsExact | internal/configtype/bytesize.go:96-107 | refused for overflow exactly when the product is outside int64, otherwise that product |
| ByteSize.SpellingsRead | internal/configtype/bytesize.go:71-110 | every spelling (space, numeral of any length, spaces, unit in any case) reads as its mathematical value when that is an int64, and is refused otherwise, by the number or by the overflow check |
| ByteSize.ShapesRead | internal/configtype/bytesize.go:71-110 | a numeral followed by a word that is no unit is refused for its number when that is no int64, otherwise for the unit |
| ByteSize.OnlyShapesRead | internal/configtype/bytesize.go:71-110 | nothing but a numeral and a word is read as far as its unit, and nothing but a spelling as a size |
| ByteSize.AcceptedExactlyWhen | internal/configtype/bytesize.go:60-110 | a text is accepted as v exactly when it spells v and v is an int64 |
| ByteSize.ReadsExactly | internal/configtype/bytesize.go:71-110 | for every text: left alone exactly when blank, a size exactly when it spells an int64, an overflow exactly when it spells more, an unknown unit exactly when its word is none, otherwise no number |
| ByteSize.UnitsArePowers | internal/configtype/bytesize.go:16-26 | the units are the byte and, for k, m, g and t, the powers of 1024 with an i and of 1000 without |
| ByteSize.Field.UnmarshalText | internal/configtype/bytesize.go:71-110 | no error exactly for blank text and the spelling of an int64, which becomes the receiver's value; each other text leaves it and gets the error of its kind |
| ByteSize.RenderUnitFits | internal/configtype/bytesize.go:50-58 | the rendered unit divides the value exactly and no larger unit of the table does |
| ByteSize.StringIsLargest | internal/configtype/bytesize.go:50-58 | a value is rendered as a whole count of the largest power of 1024 that divides it, up to the fourth, and zero as bytes |
| ByteSize.RoundTrip | internal/configtype/bytesize.go:50-110 | reading a rendered value gives it back, for every int64 |
| ClientErrors.AppendClientErrors | internal/server/json.go:142-170 | the accumulator followed by the topmost client errors left to right |
| ClientErrors.TopmostAreInTheOpen | internal/server/json.go:133-170 | those are exactly the tree's client errors that are no other's cause, in tree order |
| ClientErrors.DocumentStatus | internal/server/errors.go:145-171 | the sentinel loop gives the shared non-zero status, else 400 when all are client errors, else 500 |
| ClientErrors.StatusTells | internal/server/errors.go:137-171 | one non-zero status that all share is kept; differing 4xx give 400; any other mixture, and none, 500 |
| ClientErrors.BlamesClientExactlyWhen | internal/server/errors.go:137-171 | the document is a 4xx exactly when there are errors and all are 4xx |
| ClientErrors.OnlyTheSetOfStatusesMatters | internal/server/errors.go:145-171 | order and repetition of the errors never change the status |
| ClientErrors.ObjectsTell | internal/server/errors.go:95-122 | one object per collected error, in order, with that error's status, code, title, detail and pointer; without any, a single one that says only that the server failed |
| ClientErrors.TitlesInUse | internal/server/errors.go:31-83 | the title of each code in use, and that any other code is its own |
| ClientErrors.RestatementIsDropped | internal/server/errors.go:95-122 | what an internal failure sends, and that a message which is the title in another case is not sent twice |
| ClientErrors.DetailIsKept | internal/server/errors.go:95-122 | what a rejected body sends, with its detail and pointer |
| ClientErrors.WriteError | internal/server/json.go:104-131 | sends the document of that status whose objects report the collected errors one by one, and logs their codes |
| ErrorDelivery.DocumentArrivesExactlyWhen | internal/server/errors.go:124-135 | through the chain the client gets the document under its own status exactly unless the errors share a non-zero status that cannot carry one; and what it gets then |
| ErrorDelivery.ClientErrorsArrive | internal/server/json.go:104-131 | a document of 4xx errors always reaches the client whole |
| ClientErrors.RespondsToPublicFields | internal/server/json.go:104-131 | the response depends only on the collected errors' public fields |
| ClientErrors.CausesNeverReachTheClient | internal/server/json.go:29-52 | trees that differ only in causes, wrapper texts and plain errors get the same response |

## Left out

- Sockets, TLS, request routing, OpenTelemetry, zap encoding and Prometheus: library behaviour, kept as environment events or as an abstract log and wire.
- Clock and scheduler fairness: a step that is owed is shown to be enabled; that it is eventually taken is assumed of the Go runtime.
- Panics inside a server goroutine or inside errgroup: the shutdown code has no recovery of its own.
- Response headers other than Content-Length (Content-Type, Retry-After, security headers), and write errors of the underlying connection. Content-Length is the value in force when the status is committed; characters of a body stand for bytes.
- Writes that bypass the recorder through Unwrap, and unwrapWriter's walk, which is a plain loop down a chain of wrappers.
- withHandlerTimeout, withRequestID, withSecurityHeaders, spanRouteName, shouldTrace: short code without state.
- RequestChain.Chain.ServeInner: whether the limiter has a slot is an input here; Concurrent says when it has.
- Readiness.Readiness.Probe: draining is loaded and the registry cloned in one step; mutex and atomic accesses are single steps; a check that returns only sometimes is not a value of the model.
- ByteSize.Field.UnmarshalText: text is a sequence of characters, so bytes that are not valid UTF-8 are not modelled; the wording of errors is reduced to their kind.
- Proxy.ClientIP: yields the address, not its text; None stands for the empty string.
- ClientErrors.WriteError: JSON encoding is a given function, the document is its value; simple case folding is a given function of one character; a typed nil ClientError, which the code would dereference, is not a value of the model.
- DecodeJSON, decodeMessage and decodePointer: they match the text of library errors.
- Configuration loading, Duration, SecretString, build information, the HTTP client, embedded web assets and the mage targets.
