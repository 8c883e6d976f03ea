# Verified model of the dummy USB host, the USB test queues and the fuzzing manager

This project models the stateful protocols of the repository in Dafny and proves what they
promise, over all inputs, all interleavings and whole runs:

- `patch/kernel/dummy_hcd.c`, a software USB host controller joined to a device controller:
  the transfer engine, the frame scheduler, the life of a device request, driver unbind, and
  the root-hub port.
- `patch/kernel/usbtest.c`: the two tests that keep a queue of URBs going from their completion
  handlers.
- `patch/syzkaller/rpc.go`, `manager.go` and `fuzzer.go`: the distribution of max signal, the
  allocation of VMs, and the weighted choice from the corpus.

Each part has a module of values (the state, one function per step, the lemmas about steps and
runs), for most parts one that says what a step comes to in terms of its inputs only (`…Outcome`,
`…Order`, `…Requests`), and an `…Engine` module with the program's own objects, whose methods change their fields
in place and are proved to do what the functions say. Gadget callbacks, completion handlers,
the other side of the bus and other threads are arbitrary: functions, event lists or outcomes
over which the theorems quantify.

| files | part |
|---|---|
| `Transfer`, `TransferOutcome`, `Modular`, `ScatterGather`, `TransferEngine` | one host URB against a queue of device requests; the scatter-gather cursor |
| `Schedule`, `ScheduleOutcome`, `ScheduleProofs`, `ScheduleLimits`, `ScheduleEngine` | one frame of the timer, all frames, and where their promises end |
| `Requests`, `RequestsOrder`, `RequestsNuke`, `RequestsEngine` | queueing, the one-slot FIFO, dequeue, enable, disable, nuke, stop_activity |
| `Unbind`, `UnbindEngine` | `callback_usage` and `dummy_udc_stop` |
| `HubPort`, `HubPortRequests`, `HubPortEngine` | link state, port features, suspend and resume |
| `CtrlQueue`, `CtrlQueueOrder`, `CtrlQueueOverlap`, `CtrlQueueEngine` | the control queue test, what its verdict says about order, and completions that overlap |
| `QueueTest`, `QueueTestEngine` | the bulk, interrupt and isochronous queue test |
| `MaxSignal`, `MaxSignalEngine` | max signal between fuzzers and manager |
| `VmLoop`, `VmLoopOutcome`, `VmLoopEngine` | the manager's VM loop |
| `Corpus`, `CorpusEngine` | the corpus, its snapshots, the weighted choice |

`dafny verify dfyconfig.toml` checks everything.

## Where the code does not keep the simple promise

Each of these is stated as a concrete run, next to the exact condition under which the promise
holds.

- When the bandwidth is used up exactly inside a request, `transfer` goes on to the next queue
  entry; a zero-length request there is served out of turn and ends the URB
  (`OvertakingExample`). Batching is invisible, and bytes keep the order of the requests for
  every handler, if and only if this cannot happen (`BatchingRefinesPackets`, `ByteStreamIff`).
- `dummy_urb_dequeue` says that giveback happens automatically in the timer. An URB unlinked
  while a frame runs on a bus that is then suspended stays on the list with no timer armed
  (`SuspendedFrameForgetsUnlink`); whatever else happens in the frame, this needs a bus suspend
  (`FrameWakes`, `ForgetsIff`).
- URBs of one endpoint can be returned out of order when `find_endpoint` changes its answer for
  the address within a frame: the endpoint is bound or unbound, or the link or the interrupts are
  switched on or off (`UnsteadyFrameReorders`, where only the link becomes inactive). It takes
  such a change (`FrameOrder`, `ReordersIff`).
- The timer need not end: its scan ends if and only if stale ep0 requests are put back finitely
  often in it, whatever else happens meanwhile (`EndsIff`). Handlers that go on requeueing keep it
  going for as many turns as one likes (`RequeueingSpins`); with one control request to set up
  the condition is that they leave no stale request at some point (`StaleScanEndsIff`).
- `dummy_queue` tests the request and the endpoint before it takes the lock. Two racing calls
  put one request on two queues (`QueuedTwice`). From a given state on no request can come to
  stand in two places, without a new call, if and only if the calls under way are for different
  requests that are on no queue (`StaysOnceIff`); a disabled endpoint stays empty if and only
  if no call has passed its tests (`ClosedStaysEmptyIff`).
- `nuke` ends, whatever completion handlers and calls under way do, if and only if there is
  nothing to do or the endpoint refuses new requests (`NukeEndsIff`).
- `stop_activity` says that it prevents any more requests; it clears the address, which
  `dummy_queue` does not test. It ends for all handlers if and only if every endpoint from the
  first with something queued on refuses new requests (`StopEndsIff`), and then all queues are
  empty if and only if nothing was queued, or the device is shut and the calls under way are for
  one endpoint behind which nothing is queued (`StopEmptiesIff`).
- The reset path of `set_link_state` tests `ints_enabled`, drops the lock in `stop_activity`, and
  only then counts its callback: it can run after the driver is gone (`ResetRace`). Clearing the
  driver is safe if and only if no such window is open (`ClearingIsSafeIff`).
- Forcing PORT_ENABLE during a reset makes two suspend callbacks follow each other
  (`ImpoliteRun`). Runs that do not force it keep suspend and resume callbacks alternating if and
  only if they have so far, and do not start active or forced with an unanswered suspend
  (`SuspendsAlternateIff`).
- In the control queue test a failed resubmission is only printed: the test can pass early
  (`ResubmitFailureUnreported`) or blame the order of completions
  (`ResubmitFailureLooksOutOfOrder`). On a host that keeps order a pass means all laps were run if
  and only if no attempted resubmission was refused (`PassMeans`), and such a host can be blamed
  if and only if there are two URBs and two laps (`BlameIff`).
- The order test sees only subcase numbers: a host that completes one URB twice before the next
  can pass (`DisorderPasses`). On any host, no fault noted means exactly that statuses were
  allowed and numbers counted up from 0 over and over (`PassIff`); with at most 16 URBs, how far
  that is from the wanted laps is `PassOrder`.
- A subcase that has to fail and succeeds is printed as an error but is none: status 0 is never
  reported (`AllowedIff`).
- The handler of the first fault drops the lock while it unlinks. If the last URB comes back
  meanwhile, the waiter is woken before that handler is through, and a second time at its end
  (`EveryOverlap`); a single wakeup is sure if and only if there is one URB (`OnceIff`).
- Its comment says that a fault unlinks whatever is still pending; the loop reaches every other
  URB if and only if the failed one is among the first 16 (`UnlinksRestIff`).
- The isochronous queue test can pass although it has stopped early (`IsoPassesEarly`).
- `chooseProgram` draws from 0 to sumPrios inclusive, so the first program has one value more
  than its priority (`Exact`).

## Model

| member | source | states |
|---|---|---|
| Modular.RoundDownIsMod | patch/kernel/dummy_hcd.c:1424-1428 | rounding by whole packets, on which the transfer proofs run, is the driver's subtraction of the remainder |
| Transfer.BatchingRefinesPackets | patch/kernel/dummy_hcd.c:1380-1512 | `transfer` and the rules of section 5.8.3 of USB 2.0 applied packet by packet end in the same bytes, statuses, givebacks and limit for every completion handler, if and only if no zero-length request can overtake the head |
| Transfer.BatchingExact | patch/kernel/dummy_hcd.c:1387-1510 | the same for one given handler: equal final states when nothing can overtake |
| Transfer.Burst | patch/kernel/dummy_hcd.c:1423-1443 | any number of whole packets copied at once equals the packets one by one |
| Transfer.LimitOnlyPauses | patch/kernel/dummy_hcd.c:1416-1421 | when nothing can overtake, spending a limit in two frames or in one ends in the same state: the limit never makes a short packet |
| Transfer.OvertakingExample | patch/kernel/dummy_hcd.c:1389-1508 | two queued requests and one packet of bandwidth: the empty second request is completed first and ends the URB |
| Transfer.ByteStream | patch/kernel/dummy_hcd.c:1380-1512 | when nothing can overtake, whatever handlers queue or take away, the URB advances by exactly the bytes, in order, that the served requests carried, and the bandwidth pays for exactly them |
| Transfer.ByteStreamIff | patch/kernel/dummy_hcd.c:1380-1512 | this holds for every handler if and only if nothing can overtake |
| Transfer.ByteStreamOvertaking | patch/kernel/dummy_hcd.c:1389-1508 | with overtaking it holds for handlers that leave a head alone whose transfer has begun |
| Transfer.StatusMeaning | patch/kernel/dummy_hcd.c:1446-1489 | what the final statuses say: a read overflows exactly when the device had more than fits, a URB with room left was cut short, a write then reports the overflow on the device side |
| Transfer.ReadKeepsDeviceData | patch/kernel/dummy_hcd.c:1313-1377 | a read leaves every request's buffer as it was when accepted, also if handlers refill and queue again |
| TransferOutcome.ExchangeEnds | patch/kernel/dummy_hcd.c:1389-1508 | with bandwidth for it, any queue and any handler: bytes moved, the statuses of URB and request, or that one of them goes on, as a table over direction, the two lengths, maxpacket and the two zero-length-packet flags |
| TransferOutcome.ExchangePauses | patch/kernel/dummy_hcd.c:1416-1430 | without it, unless the next request is empty: the whole packets that fit move and nothing ends |
| TransferOutcome.WriteEndsRequest | patch/kernel/dummy_hcd.c:1475-1489 | a write of whole packets into a larger request ends the URB, and gives the request back exactly if URB_ZERO_PACKET is set |
| TransferOutcome.ReadEndsUrb | patch/kernel/dummy_hcd.c:1475-1489 | a request of whole packets read into a larger URB is given back, and ends the URB exactly if `zero` is set |
| ScatterGather.SgMiter.Next | patch/kernel/dummy_hcd.c:1347-1351 | stepping to the next piece moves no bytes and fails only at the end of the list |
| ScatterGather.SgMiter.CopyPiece | patch/kernel/dummy_hcd.c:1353-1362 | one piece of the copy equals a copy of that many bytes on the flattened list |
| ScatterGather.SgMiter.Copy | patch/kernel/dummy_hcd.c:1347-1376 | a copy through the cursor kept across calls is a copy at a position of the flattened buffer, and fails exactly when the list is too short |
| TransferEngine.Urb.PerformTransfer | patch/kernel/dummy_hcd.c:1313-1377 | linear or scattered, it copies between URB and request and advances both positions by the same bytes |
| TransferEngine.Endpoint.Close | patch/kernel/dummy_hcd.c:1446-1505 | statuses and giveback after a packet, in place, are those of the specification |
| TransferEngine.Endpoint.Turn | patch/kernel/dummy_hcd.c:1389-1510 | the loop body in place is one turn of the specification; without a stall the URB's remaining length drops or the URB is over |
| TransferEngine.Endpoint.Transfer | patch/kernel/dummy_hcd.c:1380-1512 | terminates for every completion handler, sends at most the limit, and ends in the state the specification gives |
| Schedule.ApplyGrows | patch/kernel/dummy_hcd.c:1240-1307 | host calls only append URBs and mark them, and never disarm the timer or drop the device reference |
| Schedule.VisitKeeps | patch/kernel/dummy_hcd.c:1809-1970 | one turn of the scan keeps the boundary and, unless it puts stale ep0 requests back, makes lexicographic progress: URBs due, endpoints unseen, stale ep0 requests, position |
| Schedule.EndsIff | patch/kernel/dummy_hcd.c:1801-1979 | from any valid state and for any activity in the windows the scan ends if and only if stale requests are put back finitely often |
| Schedule.AtEndIffNoneDue | patch/kernel/dummy_hcd.c:1801-1819 | the scan stops exactly behind the URBs queued before the frame |
| ScheduleOutcome.FindIs | patch/kernel/dummy_hcd.c:1549-1576 | both directions of address 0 are ep0, any other address is the first enabled endpoint of the first 31 that has it, and there is none on an inactive link or with ints_enabled clear |
| ScheduleOutcome.TurnIs | patch/kernel/dummy_hcd.c:1810-1970 | what a turn does, over all states: unlinked -EINPROGRESS, nobody there -EPROTO, halted -EPIPE, a stale request first, a control request handled, refused, refused by the gadget or carried out up to 64 KB, otherwise a transfer of what is left or a periodic share; bytes moved in each case |
| ScheduleOutcome.TurnMarks | patch/kernel/dummy_hcd.c:1843-1966 | an endpoint stays marked only while the URB it served is in progress, and a setup stage stands only behind stale requests |
| ScheduleOutcome.EveryStatus | patch/kernel/dummy_hcd.c:1759-1981 | after any number of turns each URB given back was brought back by one turn, for a reason that calls for just its status |
| ScheduleOutcome.PeriodicShare | patch/kernel/dummy_hcd.c:1514-1542 | the share of a periodic transfer at each speed, as packets per frame |
| ScheduleProofs.FrameIsolation | patch/kernel/dummy_hcd.c:1759-1981 | after any number of turns a frame has given back only URBs queued before it, each at most once, and kept the others in order; at its end every one already unlinked is back, whatever the budget and the hub |
| ScheduleProofs.FrameBandwidth | patch/kernel/dummy_hcd.c:1514-1542 | after any number of turns a frame of bulk URBs has moved at most its budget; any frame less than the budget plus one overshoot |
| ScheduleProofs.FrameOrder | patch/kernel/dummy_hcd.c:1803-1970 | while find_endpoint gives the same answer for an address (endpoint binding, active link, ints_enabled), after any number of turns the URBs of its endpoint that are not unlinked have come back in the order queued, over this frame and all before it, whatever happens to other endpoints |
| ScheduleProofs.FrameWakes | patch/kernel/dummy_hcd.c:1972-1978 | after any frame that ends the timer is armed if there is work on a running hub and the device reference is held exactly while URBs are listed; without a bus suspend in the frame no unlinked URB is left behind an idle timer |
| ScheduleProofs.HostOpsKeepAwake | patch/kernel/dummy_hcd.c:1271-1307 | enqueue, dequeue, suspend and resume lose no wakeup |
| ScheduleProofs.WholeRun | patch/kernel/dummy_hcd.c:1240-1981 | every run from dummy_start whose frames end: no lost wakeup, each URB given back once or still listed; no unlinked URB forgotten if no frame is suspended; and every endpoint in order that find_endpoint finds alike throughout each frame |
| ScheduleProofs.CalmRun | patch/kernel/dummy_hcd.c:1867-1879 | all frames of a run end in which handlers requeue finitely often in each |
| ScheduleLimits.SuspendedFrameForgetsUnlink | patch/kernel/dummy_hcd.c:1299-1307 | a run in which an unlinked URB stays listed with no timer armed |
| ScheduleLimits.ForgetsIff | patch/kernel/dummy_hcd.c:1299-1307 | from every state with nothing unlinked whose first URB is served, no frame forgets an unlinked URB if and only if no bus suspend can fall into the frame |
| ScheduleLimits.UnsteadyFrameReorders | patch/kernel/dummy_hcd.c:1835-1843 | a frame that returns the second of two URBs first |
| ScheduleLimits.ReordersIff | patch/kernel/dummy_hcd.c:1835-1843 | from every state whose first URB is served and whose second is for the same endpoint, all frames that end keep the order if and only if find_endpoint cannot change its answer in the frame |
| ScheduleLimits.RequeueingSpins | patch/kernel/dummy_hcd.c:1867-1879 | a frame, from the start state and one enqueue, whose scan is not over after any number of turns |
| ScheduleLimits.StaleScanEndsIff | patch/kernel/dummy_hcd.c:1867-1879 | a frame with one control request to set up ends if and only if at some point no stale request is left |
| ScheduleEngine.DummyHcd.UrbEnqueue | patch/kernel/dummy_hcd.c:1240-1291 | queues at the tail, takes the device reference, sets the boundary if none is set, arms the timer |
| ScheduleEngine.DummyHcd.UrbDequeue | patch/kernel/dummy_hcd.c:1293-1307 | marks the URB, refuses exactly unknown or already unlinked ones, arms the timer on a hub that does not run |
| ScheduleEngine.DummyHcd.ReturnUrb | patch/kernel/dummy_hcd.c:1958-1969 | takes the URB off, unmarks its endpoint, drops the lock and restarts |
| ScheduleEngine.DummyHcd.SetupUrb | patch/kernel/dummy_hcd.c:1885-1921 | a control request is handled, passed to the gadget with a 64 KB stage, or returned with a stall |
| ScheduleEngine.DummyHcd.VisitUrb | patch/kernel/dummy_hcd.c:1810-1970 | the loop body in place is one turn of the specification |
| ScheduleEngine.DummyHcd.Timer | patch/kernel/dummy_hcd.c:1759-1981 | the whole handler, with its gotos, is one frame of the specification, and ends whenever that does |
| Requests.StepConserves | patch/kernel/dummy_hcd.c:687-781 | every step, polite or not, keeps accepted = given back + in a completion handler + queued, per request |
| Requests.EveryRunConserves | patch/kernel/dummy_hcd.c:687-781 | over all runs no request is given back more often than it was accepted |
| Requests.StepKeeps | patch/kernel/dummy_hcd.c:633-781 | every step of a driver that does not race with itself keeps the invariant |
| Requests.EveryPoliteRun | patch/kernel/dummy_hcd.c:329-342 | over all such runs a request, fifo_req included, is in at most one place, and an endpoint without descriptor and without a disable in progress is empty |
| Requests.CountIsPlaces | patch/kernel/dummy_hcd.c:696-738 | a request counted at most once over all queues is exactly one that stands in at most one place |
| Requests.QueuedTwice | patch/kernel/dummy_hcd.c:696-707 | two racing calls put one request on two queues |
| Requests.StaysOnceIff | patch/kernel/dummy_hcd.c:696-738 | without new calls, no request ever stands in two places if and only if the calls under way are for different requests, each once, that are on no queue |
| Requests.ClosedStaysEmptyIff | patch/kernel/dummy_hcd.c:633-652 | a disabled, empty endpoint stays empty under all later events if and only if no call of dummy_queue has passed its tests for it |
| Requests.AddAppends | patch/kernel/dummy_hcd.c:717-738 | through the FIFO or not, queueing adds the request's bytes at the end of its endpoint's stream and changes no other stream |
| RequestsOrder.QueueRefuses | patch/kernel/dummy_hcd.c:687-709 | which requests are refused and how, by what stands on the queues |
| RequestsOrder.AtOnceIff | patch/kernel/dummy_hcd.c:714-738 | a request is completed while being queued exactly if its endpoint is enabled and sends to the host, nothing waits there, the FIFO is on no queue, and it is at most 64 bytes |
| RequestsOrder.CallIs | patch/kernel/dummy_hcd.c:687-743 | an undisturbed call: when it returns the request is on its queue, or has been given back with its copy there |
| RequestsOrder.InOrder | patch/kernel/dummy_hcd.c:687-743 | over all runs in which requests leave at the head, each endpoint begins to give its driver's requests back in the order accepted, those completed at once included, and none is skipped |
| RequestsOrder.DequeueReorders | patch/kernel/dummy_hcd.c:745-781 | a dequeue of the second request breaks that order |
| RequestsOrder.NukeTakesHead | patch/kernel/dummy_hcd.c:329-342 | undisturbed, k rounds of nuke give back the first k requests |
| RequestsNuke.RoundShrinks | patch/kernel/dummy_hcd.c:331-341 | a round of nuke on an endpoint that refuses requests leaves less to give back, queued or under way, whatever handlers and other calls do meanwhile |
| RequestsNuke.ClosedEnds | patch/kernel/dummy_hcd.c:329-342 | there nuke ends with an empty queue that still refuses requests, also when calls of dummy_queue are under way |
| RequestsNuke.NukeEndsIff | patch/kernel/dummy_hcd.c:329-342 | nuke ends for all handlers and threads that do not open the endpoint if and only if its queue is empty or it refuses requests |
| RequestsNuke.StopLeaves | patch/kernel/dummy_hcd.c:345-358 | on a shut device stop_activity ends and leaves on a queue no more than the calls that were under way for it, and nothing on the last |
| RequestsNuke.StopEndsIff | patch/kernel/dummy_hcd.c:345-358 | on any device it ends for all handlers and threads if and only if every endpoint from the first with something queued on refuses requests |
| RequestsNuke.StopEmptiesIff | patch/kernel/dummy_hcd.c:345-358 | on any device it ends with all queues empty, for all handlers and threads, if and only if nothing was queued, or the device is shut and the calls under way are for one endpoint behind which nothing is queued |
| RequestsEngine.DummyUdc.AddRequest | patch/kernel/dummy_hcd.c:714-739 | the locked part: FIFO copy exactly if its conditions hold, else appended |
| RequestsEngine.DummyUdc.Queue | patch/kernel/dummy_hcd.c:687-743 | the whole call, with arbitrary events outside the lock: -EINVAL, -ESHUTDOWN, or queued |
| RequestsEngine.DummyUdc.Dequeue | patch/kernel/dummy_hcd.c:745-781 | takes exactly the request's place off and gives it back, -EINVAL if it is not queued, -ESHUTDOWN without driver |
| RequestsEngine.DummyUdc.EnableEp | patch/kernel/dummy_hcd.c:498-631 | which calls are refused and how, and that nothing changes then |
| RequestsEngine.DummyUdc.Disable | patch/kernel/dummy_hcd.c:633-652 | terminates with the endpoint empty and refusing requests, whatever handlers do and also when it races with calls of dummy_queue |
| RequestsEngine.DummyUdc.Nuke | patch/kernel/dummy_hcd.c:329-342 | the loop in place is the specification, wherever it ends |
| RequestsEngine.DummyUdc.StopActivity | patch/kernel/dummy_hcd.c:345-358 | all endpoints in turn, in place, from any state from which it ends; on a shut device what is left was under way when it began, and nothing is left when those calls are for one endpoint behind which nothing is queued |
| Unbind.StepKeeps | patch/kernel/dummy_hcd.c:455-480 | every step keeps callback_usage equal to the callbacks in flight |
| Unbind.DriverLeavesQuietly | patch/kernel/dummy_hcd.c:996-1016 | the driver is cleared only when nothing runs, and no callback tested under the lock starts without one |
| Unbind.DrainOnlyEmpties | patch/kernel/dummy_hcd.c:1004-1011 | once draining has begun and no window is open, callbacks only end |
| Unbind.EveryRun | patch/kernel/dummy_hcd.c:1895-1901 | over all interleavings the count is exact and setup, suspend and resume never run without a driver |
| Unbind.EveryTally | patch/kernel/dummy_hcd.c:455-480 | over all interleavings the windows open are those opened and not closed, the callbacks of a kind in flight those begun and not ended |
| Unbind.ClearingIsSafeIff | patch/kernel/dummy_hcd.c:459-469 | after clearing the driver no reset or disconnect callback can run without one if and only if no window is open |
| Unbind.ResetRace | patch/kernel/dummy_hcd.c:459-469 | an interleaving from the start that runs a reset callback without a driver |
| Unbind.DrainedKeeps | patch/kernel/dummy_hcd.c:1004-1016 | however the naps of dummy_udc_stop are interleaved, it clears the driver exactly when it ends, and then no callback runs |
| UnbindEngine.DummyBinding.UdcStop | patch/kernel/dummy_hcd.c:996-1019 | the call in place, with arbitrary callbacks while it has dropped the lock: the driver is gone only with no callback left, else it still waits |
| HubPort.LinkStateSound | patch/kernel/dummy_hcd.c:369-484 | whatever was done to the bits, set_link_state makes CONNECTION follow power, pullup and suspend, ENABLE imply CONNECTION, SUSPEND imply ENABLE, active follow them, and old values current |
| HubPort.ApplyKeeps | patch/kernel/dummy_hcd.c:1992-2361 | every hub, gadget and bus operation keeps these |
| HubPort.RunKeeps | patch/kernel/dummy_hcd.c:1992-2361 | so does every run |
| HubPort.ApplyLatches | patch/kernel/dummy_hcd.c:398-424 | under power a change of CONNECTION sets C_CONNECTION, which stays until the host clears it |
| HubPort.ConnectChangeLatched | patch/kernel/dummy_hcd.c:398-424 | over every powered run without that clear, no connect change is lost |
| HubPort.SuspendsAlternateIff | patch/kernel/dummy_hcd.c:429-484 | with a bound driver, every run that does not force PORT_ENABLE during a reset keeps a resume callback between two suspend callbacks, if and only if that holds so far and no suspend is unanswered on an active or forced port |
| HubPort.BindingAlternates | patch/kernel/dummy_hcd.c:429-484 | from power-off, through any run, binding a driver and such a run: the callbacks of that binding alternate, and an active port has answered its suspend |
| HubPort.ImpoliteRun | patch/kernel/dummy_hcd.c:2255-2290 | a run with a forced PORT_ENABLE that breaks this |
| HubPort.ResetHandshake | patch/kernel/dummy_hcd.c:2150-2300 | reset, then GetPortStatus after 50 ms: not enabled first, then enabled at the device's speed, change reported, one reset callback |
| HubPort.SuspendHandshake | patch/kernel/dummy_hcd.c:2092-2250 | suspend, resume, GetPortStatus after 20 ms: exactly one suspend and one resume callback, and the port as before with C_SUSPEND |
| HubPortRequests.Results | patch/kernel/dummy_hcd.c:1992-2361 | what each call returns and which calls change nothing |
| HubPortRequests.PowerOn | patch/kernel/dummy_hcd.c:2239-2245 | SetPortFeature(POWER) powers any port, and connects it exactly if a device is pulled up and not suspended |
| HubPortRequests.PowerOff | patch/kernel/dummy_hcd.c:2106-2113 | ClearPortFeature(POWER) leaves no bit, and a bound driver is told of the disconnect |
| HubPortRequests.ClearedBits | patch/kernel/dummy_hcd.c:2106-2118 | what each ClearPortFeature removes from a connected port: the bit named, with ENABLE also SUSPEND, and never CONNECTION |
| HubPortRequests.SetBits | patch/kernel/dummy_hcd.c:2194-2311 | what each SetPortFeature adds to or takes from a connected port, and that without power none but POWER does anything |
| HubPortRequests.PullupOff | patch/kernel/dummy_hcd.c:891-907 | a pullup that goes takes the connection with it, latches the change, and suspends an active driver |
| HubPortRequests.BusHandshake | patch/kernel/dummy_hcd.c:2327-2361 | bus suspend and resume leave the bits as they were, with one callback each |
| HubPortRequests.RemoteWakeup | patch/kernel/dummy_hcd.c:847-868 | a wakeup, and the hub's poll 20 ms later: suspend ended and reported, one resume callback |
| HubPortRequests.NotBefore | patch/kernel/dummy_hcd.c:1992-2192 | before its time is up no poll ends a resume or a reset |
| HubPortRequests.BringUp | patch/kernel/dummy_hcd.c:2071-2311 | from power-off: pullup, power, reset, GetPortStatus after 50 ms end with the port enabled and active at the device's speed, with the exact bits and callbacks at every step |
| HubPortEngine.DummyPort.SetLinkState | patch/kernel/dummy_hcd.c:429-484 | in place, bits and callbacks as specified |
| HubPortEngine.DummyPort.HubStatus | patch/kernel/dummy_hcd.c:1992-2021 | in place, with the return value that reports a change bit |
| HubPortEngine.DummyPort.SetPortFeature | patch/kernel/dummy_hcd.c:2194-2311 | in place, all features of a USB 2.0 port |
| HubPortEngine.DummyPort.HubControl | patch/kernel/dummy_hcd.c:2071-2324 | in place, all requests, new state and return value |
| HubPortEngine.DummyPort.BusResume | patch/kernel/dummy_hcd.c:2340-2361 | in place, refused on inaccessible hardware |
| HubPortEngine.DummyPort.Wakeup | patch/kernel/dummy_hcd.c:847-868 | remote wakeup: which calls are refused and how, and that otherwise only the resume signalling and its timeout are set |
| CtrlQueue.EveryRun | patch/kernel/usbtest.c:1230-1341 | under any faults and any order of completions at most sglen * iterations completions, and completion is signalled exactly once, when nothing is queued |
| CtrlQueue.Ring | patch/kernel/usbtest.c:1230-1341 | with allowed statuses and a host that keeps order: the order test never fires for any sglen, exactly sglen * iterations completions in laps, signalled once at the end |
| CtrlQueue.LapsMeaning | patch/kernel/usbtest.c:1357-1361 | completion lap * sglen + p is URB p's, and each URB completes exactly `iterations` times |
| CtrlQueue.PassMeans | patch/kernel/usbtest.c:1261-1335 | on a host that keeps order: when no attempted resubmission is refused the test passes if and only if every status was allowed; and a pass means that all laps were run if and only if none was refused |
| CtrlQueue.ShortStart | patch/kernel/usbtest.c:1528-1541 | after a failed submission each submitted URB completes once, in any order, nothing is resubmitted, the test fails |
| CtrlQueue.ZeroIterationsCirculate | patch/kernel/usbtest.c:1242-1243 | with no iterations the unsigned count wraps: as long as statuses are allowed, resubmissions work and order is kept, for 2^32 - sglen completions all URBs stay queued and nothing is signalled |
| CtrlQueue.ResubmitFailureUnreported | patch/kernel/usbtest.c:1324-1335 | a failed resubmission ends the test early with a pass |
| CtrlQueue.ResubmitFailureLooksOutOfOrder | patch/kernel/usbtest.c:1245-1258 | a failed resubmission is reported as wrong order |
| CtrlQueue.UnlinksRestIff | patch/kernel/usbtest.c:1299-1319 | the unlink loop reaches every other URB if and only if the failed one is among the first 16 |
| CtrlQueueOrder.PassIff | patch/kernel/usbtest.c:1245-1284 | on any host and whatever resubmissions do, no fault is noted if and only if every status was allowed and subcase numbers counted up from 0 over and over |
| CtrlQueueOrder.AllowedIff | patch/kernel/usbtest.c:1262-1279 | the statuses that are no fault: 0, the expected one, its negative if it need not happen, and a stall of subcase 12; an unlinked URB only if expected |
| CtrlQueueOrder.StatusIsFirstFault | patch/kernel/usbtest.c:1245-1284 | the context's status is that of the first completion that is a fault, -EDOM if it was out of step, and 0 if there is none |
| CtrlQueueOrder.PassOrder | patch/kernel/usbtest.c:1245-1258 | with at most 16 URBs and no fault noted, URBs completed in blocks 0..p, and these are the wanted laps if and only if both completions and blocks are as many as wanted |
| CtrlQueueOrder.DisorderPasses | patch/kernel/usbtest.c:1245-1258 | a host that completes 0, 0, 1, 0 of two URBs in two laps passes |
| CtrlQueueOrder.BlameIff | patch/kernel/usbtest.c:1245-1335 | a host that keeps order and returns allowed statuses can be found at fault if and only if there are at least two URBs and two laps |
| CtrlQueueOverlap.UndisturbedIsComplete | patch/kernel/usbtest.c:1277-1340 | the handler of the first fault, undisturbed in its unlink loop, is one completion of the test |
| CtrlQueueOverlap.EveryOverlap | patch/kernel/usbtest.c:1230-1341 | however handlers overlap in that loop, completions are bounded, nothing is signalled while a URB is queued, the signal is not lost, and it comes early and twice exactly if the last URB comes back during the loop |
| CtrlQueueOverlap.OnceIff | patch/kernel/usbtest.c:1277-1340 | in all runs the waiter is woken exactly once if and only if there is one URB |
| CtrlQueueEngine.CtrlContext.CtrlComplete | patch/kernel/usbtest.c:1230-1341 | the handler in place, for any URB the host has, is one step of the specification |
| CtrlQueueEngine.CtrlContext.TestCtrlQueue | patch/kernel/usbtest.c:1343-1557 | ends for all outcomes and any order of completions, refuses bad parameters, signals once, returns the first submission error, or the first faulty completion's status, or 0; on a host that keeps order, 0 means all laps exactly when no attempted resubmission was refused |
| QueueTest.CallbackSound | patch/kernel/usbtest.c:2069-2115 | every completion, in any order and with any fault, keeps pending = URBs in flight <= count, without underflow |
| QueueTest.EveryRun | patch/kernel/usbtest.c:2069-2115 | done is signalled exactly once, when nothing is in flight, and then all completions have happened if and only if not every URB was lost to a fault |
| QueueTest.BulkPasses | patch/kernel/usbtest.c:2270-2285 | a bulk or interrupt test passes if and only if every completion was clean and every resubmission worked, and then ran in full |
| QueueTest.IsoPassesEarly | patch/kernel/usbtest.c:2270-2285 | an isochronous test that passes after ten of nineteen completions |
| QueueTest.ResubmittedIff | patch/kernel/usbtest.c:2087-2104 | a URB goes round again exactly if it came back clean, more completions are wanted than are in flight, and no resubmission has failed |
| QueueTest.FailureDrains | patch/kernel/usbtest.c:2087-2112 | after a failed resubmission every URB in flight completes once, and that is all |
| QueueTest.ResultIs | patch/kernel/usbtest.c:2270-2285 | what a test returns, from the sums of errors and packets of its completions: an isochronous one fails exactly if more than one packet in ten was bad |
| QueueTestEngine.TransferContext.ComplicatedCallback | patch/kernel/usbtest.c:2069-2115 | the handler in place is one step of the specification |
| QueueTestEngine.TransferContext.RunTest | patch/kernel/usbtest.c:2191-2285 | ends for every host, refuses bad parameters, signals once if any URB was submitted, and its result is exact for bulk and isochronous tests |
| MaxSignal.StepKeeps | patch/syzkaller/rpc.go:147-171 | every step keeps, for every connected fuzzer, that nothing is lost, hidden or invented |
| MaxSignal.EveryRun | patch/syzkaller/rpc.go:79-171 | over all runs what the manager knows is known to each fuzzer, in its unread answer or in its backlog, the backlog is within maxSignal, and what a fuzzer knows is known to the manager, on its way, or corpus signal |
| MaxSignal.ServedIs | patch/syzkaller/rpc.go:147-171 | one poll, entry by entry: the manager takes the better priority, every other backlog learns what was news, and of the own backlog min(500, size) entries move to the answer |
| MaxSignal.Drains | patch/syzkaller/rpc.go:157-171 | polls with nothing new, of any fuzzers in any order, shorten the backlog by 500 for each own poll whatever Split takes, so it is empty after size / 500 of them, rounded up, and not before, and then the fuzzer knows all the manager knows |
| MaxSignalEngine.RPCServer.Poll | patch/syzkaller/rpc.go:147-171 | in place: better entries go to maxSignal and every other backlog, and up to 500 entries of the own backlog are answered and removed |
| MaxSignalEngine.RPCServer.Connect | patch/syzkaller/rpc.go:79-91 | a fuzzer that connects starts with all of maxSignal in its backlog |
| MaxSignalEngine.FuzzerProcess.CheckNewCallSignal | patch/syzkaller/fuzzer.go:652-664 | true exactly for something new; the signal is then in maxSignal and, if new, in newSignal, although between test and merge other threads find signal, grab newSignal for a poll and merge its answer |
| MaxSignalEngine.FuzzerProcess.Poll | patch/syzkaller/fuzzer.go:517-532 | one undisturbed poll is one round of the protocol on both ends |
| VmLoop.EveryRun | patch/syzkaller/manager.go:344-494 | in every reachable state free, running and reproducing VMs partition 0..n-1, reproInstances is what the repros hold, and the titles queued or being reproduced are exactly `reproducing`, none twice |
| VmLoop.NeverIdles | patch/syzkaller/manager.go:386-429 | before shutdown a VM stays free only for a repro that waits for more, while an instance runs that takes the stop request or has taken it |
| VmLoop.ShutdownDrains | patch/syzkaller/manager.go:391-429 | after shutdown nothing starts and instances and repros only end |
| VmLoop.OverIff | patch/syzkaller/manager.go:364 | the loop ends exactly when shutdown has begun, nothing runs and no repro holds a VM |
| VmLoop.OverMeansDone | patch/syzkaller/manager.go:364 | at the end every VM is free, once, and no instance, repro or stop request is left |
| VmLoopOutcome.AdmitAllIs | patch/syzkaller/manager.go:369-380 | in whatever order: only needed crashes are queued, one of a title and none whose title is being reproduced; a crash that is not pending any more was queued or is not needed, and one still pending has its title queued or reproduced |
| VmLoopOutcome.StartReprosIs | patch/syzkaller/manager.go:386-413 | as many reproductions start as crashes, free VMs and the bound allow, none in an early phase, each with the next crash and the next min(4, n) VMs from the tails |
| VmLoopOutcome.StartRunsIs | patch/syzkaller/manager.go:414-424 | every free VM gets an instance, from the tail, unless a reproduction waits |
| VmLoopOutcome.StopIsFor | patch/syzkaller/manager.go:426-433 | when a stop request is on offer |
| VmLoopEngine.VmManager.LaunchRepros | patch/syzkaller/manager.go:392-413 | the loop in place: as many repros as fit, from the tail of the queue |
| VmLoopEngine.VmManager.Pass | patch/syzkaller/manager.go:364-494 | one pass in place is one step of the specification |
| VmLoopEngine.VmManager.RunLoop | patch/syzkaller/manager.go:344-494 | any run in place, and all VMs back when it is over |
| Corpus.Matches | patch/syzkaller/fuzzer.go:586-598 | after any inputs the state is that of the list with the first input of every hash |
| Corpus.EverySequence | patch/syzkaller/fuzzer.go:586-598 | corpusPrios are the prefix sums of that list, strictly increasing, and end at sumPrios |
| Corpus.FirstsDedup | patch/syzkaller/fuzzer.go:588-590 | that list has one entry for every hash and no other |
| Corpus.Exact | patch/syzkaller/fuzzer.go:578-584 | of the random values 0 to sumPrios, a program is chosen by as many as its input has signal elements, by one if it has none, the first program by one more |
| Corpus.ChoosesOne | patch/syzkaller/fuzzer.go:578-584 | every random value chooses exactly one program |
| CorpusEngine.Append | patch/syzkaller/fuzzer.go:589-596 | append may write behind the end of a shared array, and no shorter slice of it changes |
| CorpusEngine.Search | patch/syzkaller/fuzzer.go:580-582 | the binary search finds the first prefix sum that is not below the value |
| CorpusEngine.ChooseProgram | patch/syzkaller/fuzzer.go:578-584 | returns the program to which the random value belongs |
| CorpusEngine.FuzzerCorpus.AddInput | patch/syzkaller/fuzzer.go:586-598 | in place on shared arrays, the corpus is that of the inputs so far |
| CorpusEngine.FuzzerCorpus.ChooseLater | patch/syzkaller/fuzzer.go:608-612 | a snapshot chooses by the corpus it was taken of, however the corpus grows after it |

## Left out

- Transfer.BatchingRefinesPackets: endpoints without streams, a positive maxpacket and a URB no longer
  than its buffer, which the USB core checks before the driver is called.
- ScheduleProofs.FrameOrder: assumes that find_endpoint gives the same answer for the address within a
  frame, which `ReordersIff` shows to be needed; between frames it may change freely.
- ScheduleProofs.WholeRun: runs whose frames end, exactly characterised by `EndsIff`; of a frame that
  does not, what holds after any number of turns is in `FrameIsolation`, `FrameBandwidth`, `FrameOrder`.
- Requests.EveryPoliteRun: assumes what the gadget API asks of the driver, not to queue one request in
  two calls at once nor to disable an endpoint under a call; without it the exact conditions are
  `StaysOnceIff` and `ClosedStaysEmptyIff`. Conservation needs no such assumption.
- RequestsEngine.DummyUdc.Disable: nobody enables the endpoint again before the call ends.
- RequestsEngine.DummyUdc.StopActivity: that it ends is asked of its start and of what happens meanwhile:
  `dummy_udc_stop` does not test that the device is shut, and on one that is not it need not end
  (`StopEndsIff`). What is left is stated for a shut device, while nobody enables an endpoint, binds
  a driver or reconnects before the call ends.
- HubPort.BindingAlternates: both callbacks are offered, the driver stays bound, and PORT_ENABLE is not
  forced during a reset, which `ImpoliteRun` and `SuspendsAlternateIff` show to be needed.
- CtrlQueue.Ring: the order in which the host completes URBs is that of its queue, as the test demands;
  so for `PassMeans` and `ZeroIterationsCirculate`.
- SuperSpeed hubs, streams and their bit packing: they double the state of the port and the
  transfer engine and add small facts about nibbles. Isochronous scheduling is not done by the
  source either.
- `handle_control_request`: its result is arbitrary. The chapter 9 tests, descriptor checks and
  ioctl wrappers are device I/O or single branches.
- Module init, probe, remove, sysfs, memory allocation and its failures, debug messages.
- The sg_miter iterator, the USB core and the syzkaller packages `signal`, `repro` and `vm` are not
  part of the repository; they are modelled by what their documented interface says.
- Device requests and URBs are values with identifiers: two pointers to one request are one
  identifier, and corruption of a list by a double insertion shows as a request in two places.
- The scheduler sees a transfer as its outcome, bytes sent within the limit and a status; the
  transfer engine proves that bound. The locals of `dummy_timer` are fields of the object.
- Hub operations are atomic and callbacks made inside them do not reenter the hub code. Hub
  descriptors and the LPM features of USB 3.0 are not modelled.
- The asynchronous unlinking after a fault in the control queue test is covered by arbitrary
  statuses and an arbitrary order of later completions. A completion inside the unlink loop of
  another is in `CtrlQueueOverlap`; the engine handles one at a time.
- Hardware order of completions in the queue test is arbitrary; buffer contents and guard bytes
  are one bit of the outcome. The error counters do not wrap.
- The RPC server's distribution of inputs: Connect reads the corpus before it takes the server's
  lock, so an input accepted in between is not delivered, and nothing is claimed about it.
- Crash files, dashboard, hub sync, HTTP, statistics, logging and phases other than the test
  against phaseTriagedHub.
- sumPrios is unbounded: the source's int64 is not modelled to wrap.
